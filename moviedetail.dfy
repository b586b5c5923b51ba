// The movie page (src/pages/MovieDetail.jsx): finding the movie of the
// route, the cast list, the reviewer directory and reviewer names, the
// order the ratings are shown in, the ratings payload, the director line,
// the play button and the rating the page submits.
//
// Number() on strings is the `parse` oracle and Date.getTime the `timeOf`
// oracle; both are parameters.

module MovieDetail {
  import opened Wrappers
  import opened Strings
  import opened Js

  // ---------------------------------------------------------------------
  // The movie of the route
  // ---------------------------------------------------------------------

  /** `String(m.id) === String(id) || m.id === Number(id)`, for the route
      id `id` (always a string). */
  predicate IdMatches(m: Js, id: string, parse: string -> Option<int>)
  {
    var mid := Field(m, "id");
    ToStr(mid) == id || (mid.Num? && parse(id) == Some(mid.n))
  }

  /** The index `movies.find` stops at, searching from k. */
  function FindFrom(movies: seq<Js>, id: string, parse: string -> Option<int>, k: nat): (r: Option<nat>)
    requires k <= |movies|
    ensures r.Some? ==> k <= r.value < |movies| && IdMatches(movies[r.value], id, parse)
                        && forall j :: k <= j < r.value ==> !IdMatches(movies[j], id, parse)
    ensures r.None? ==> forall j :: k <= j < |movies| ==> !IdMatches(movies[j], id, parse)
    decreases |movies| - k
  {
    if k == |movies| then None
    else if IdMatches(movies[k], id, parse) then Some(k)
    else FindFrom(movies, id, parse, k + 1)
  }

  /** The movie the page shows: the first one whose id matches. */
  function FindMovie(movies: seq<Js>, id: string, parse: string -> Option<int>): (r: Option<Js>)
    ensures r.None? <==> forall j :: 0 <= j < |movies| ==> !IdMatches(movies[j], id, parse)
    ensures r.Some? ==> exists i :: 0 <= i < |movies| && movies[i] == r.value && IdMatches(movies[i], id, parse)
                                    && forall j :: 0 <= j < i ==> !IdMatches(movies[j], id, parse)
  {
    match FindFrom(movies, id, parse, 0)
    case None => None
    case Some(i) => Some(movies[i])
  }

  /** A numeric id is found from its decimal spelling, and from any other
      spelling Number() reads as the same number ("07", " 7"). */
  lemma NumericIdFound(movies: seq<Js>, i: int, id: string, parse: string -> Option<int>)
    requires 0 <= i < |movies| && Field(movies[i], "id").Num?
    requires id == IntToString(Field(movies[i], "id").n) || parse(id) == Some(Field(movies[i], "id").n)
    ensures FindMovie(movies, id, parse).Some?
  {
    assert IdMatches(movies[i], id, parse);
  }

  /** A string id is found from the same string. */
  lemma StringIdFound(movies: seq<Js>, i: int, parse: string -> Option<int>)
    requires 0 <= i < |movies| && Field(movies[i], "id").Str?
    ensures FindMovie(movies, Field(movies[i], "id").s, parse).Some?
  {
    assert IdMatches(movies[i], Field(movies[i], "id").s, parse);
  }

  // ---------------------------------------------------------------------
  // Cast
  // ---------------------------------------------------------------------

  /** One cast card; fields the source leaves out are undefined. */
  datatype CastMember = CastMember(id: Js, name: Js, avatar: Js, country: Js)

  const Korea := Str("Hàn Quốc")

  function Default(name: string, img: string): CastMember
  {
    CastMember(Undefined, Str(name), Str("https://i.pravatar.cc/150?img=" + img), Korea)
  }

  /** The cast shown when the movie lists no actors. */
  const DefaultCast: seq<CastMember> := [
    Default("Yoona", "47"), Default("Lee Chae-min", "12"), Default("Kang Han-na", "32"),
    Default("Choi Gwi-hwa", "58"), Default("Oh Eui-sik", "15"), Default("Seo Yi-sook", "21"),
    Default("Park Young-woon", "13"), Default("Yoon Seo-ah", "45")]

  /** One actor of `movie.actors`: a string is a bare name; anything else
      gives its id, its first name field and its first avatar field. */
  function CastEntry(a: Js): (c: CastMember)
    ensures a.Str? ==> c == CastMember(Undefined, a, Undefined, Undefined)
    ensures !a.Str? ==> c.id == OptField(a, "id") && (c.name.Str? || Truthy(c.name)) && c.country.Undefined?
    ensures !a.Str? ==>
              var name, full, user := OptField(a, "name"), OptField(a, "fullName"), OptField(a, "username");
              (Truthy(name) ==> c.name == name)
              && (!Truthy(name) && Truthy(full) ==> c.name == full)
              && (!Truthy(name) && !Truthy(full) && Truthy(user) ==> c.name == user)
              && (!Truthy(name) && !Truthy(full) && !Truthy(user) ==> c.name == Str(""))
    ensures !a.Str? ==>
              var av, url, img, image := OptField(a, "avatar"), OptField(a, "avatarUrl"),
                                         OptField(a, "imageUrl"), OptField(a, "image");
              (Truthy(av) ==> c.avatar == av)
              && (!Truthy(av) && Truthy(url) ==> c.avatar == url)
              && (!Truthy(av) && !Truthy(url) && Truthy(img) ==> c.avatar == img)
              && (!Truthy(av) && !Truthy(url) && !Truthy(img) && Truthy(image) ==> c.avatar == image)
              && (!Truthy(av) && !Truthy(url) && !Truthy(img) && !Truthy(image) ==> c.avatar == OptField(a, "profilePath"))
  {
    if a.Str? then CastMember(Undefined, a, Undefined, Undefined)
    else
      CastMember(OptField(a, "id"),
                 Or(OptField(a, "name"), Or(OptField(a, "fullName"), Or(OptField(a, "username"), Str("")))),
                 Or(OptField(a, "avatar"), Or(OptField(a, "avatarUrl"), Or(OptField(a, "imageUrl"),
                   Or(OptField(a, "image"), OptField(a, "profilePath"))))),
                 Undefined)
  }

  predicate HasActors(movie: Js)
  {
    OptField(movie, "actors").Arr? && |OptField(movie, "actors").items| > 0
  }

  /** castList: one card per listed actor, in order, or the default
      cast. */
  function CastList(movie: Js): (r: seq<CastMember>)
    ensures HasActors(movie) ==> |r| == |OptField(movie, "actors").items|
                                 && forall i :: 0 <= i < |r| ==> r[i] == CastEntry(OptField(movie, "actors").items[i])
    ensures !HasActors(movie) ==> r == DefaultCast
  {
    if HasActors(movie) then
      var actors := OptField(movie, "actors").items;
      seq(|actors|, i requires 0 <= i < |actors| => CastEntry(actors[i]))
    else DefaultCast
  }

  /** Without actors (none listed, an empty list, no movie yet) the page
      shows the eight default cards, each with a name. */
  lemma DefaultCastShown(movie: Js)
    requires !HasActors(movie)
    ensures |CastList(movie)| == 8
    ensures forall i :: 0 <= i < 8 ==> Truthy(CastList(movie)[i].name)
  {
  }

  /** A list of names becomes cards carrying exactly those names. */
  lemma NamesBecomeCards(movie: Js)
    requires HasActors(movie)
    requires forall a :: a in OptField(movie, "actors").items ==> a.Str?
    ensures forall i :: 0 <= i < |CastList(movie)| ==>
              CastList(movie)[i].name == OptField(movie, "actors").items[i]
              && CastList(movie)[i].id.Undefined?
  {
    var actors := OptField(movie, "actors").items;
    forall i | 0 <= i < |actors|
      ensures CastList(movie)[i].name == actors[i]
    {
      assert actors[i] in actors;
    }
  }

  // ---------------------------------------------------------------------
  // The reviewer directory
  // ---------------------------------------------------------------------

  datatype UserInfo = UserInfo(name: Js, avatar: Js)

  /** `Array.isArray(list) ? list : Array.isArray(list?.items) ? list.items : []` */
  function UserList(list: Js): (r: seq<Js>)
    ensures list.Arr? ==> r == list.items
  {
    FirstArray([list, OptField(list, "items")])
  }

  function UserId(u: Js): Js
  {
    OptField(u, "id")
  }

  /** The entry of a user: the first of its name fields, else
      "Người dùng <id>"; the first avatar field, else "". */
  function UserEntry(u: Js): (e: UserInfo)
    ensures Truthy(e.name)
  {
    UserInfo(Or(Field(u, "fullName"), Or(Field(u, "username"), Or(Field(u, "displayName"),
               Or(Field(u, "email"), Str("Người dùng " + ToStr(UserId(u))))))),
             Or(Field(u, "avatarUrl"), Or(Field(u, "avatar"), Or(Field(u, "imageUrl"), Str("")))))
  }

  /** One step of the loop: users without an id are skipped, the others
      stored under String(id), overwriting an earlier entry. */
  function AddUser(users: map<string, UserInfo>, u: Js): map<string, UserInfo>
  {
    if Nullish(UserId(u)) then users else users[ToStr(UserId(u)) := UserEntry(u)]
  }

  /** The directory the loop builds from `us`, read from left to right. */
  function UsersMapOf(us: seq<Js>): map<string, UserInfo>
  {
    if us == [] then map[] else AddUser(UsersMapOf(us[..|us| - 1]), us[|us| - 1])
  }

  /** The effect that loads the public users. */
  method BuildUsersMap(list: Js) returns (users: map<string, UserInfo>)
    ensures users == UsersMapOf(UserList(list))
  {
    var arr := UserList(list);
    users := map[];
    var i := 0;
    while i < |arr|
      invariant 0 <= i <= |arr|
      invariant users == UsersMapOf(arr[..i])
    {
      var u := arr[i];
      var id := UserId(u);
      if !Nullish(id) {
        users := users[ToStr(id) := UserEntry(u)];
      }
      assert arr[..i + 1][..i] == arr[..i];
      i := i + 1;
    }
    assert arr[..|arr|] == arr;
  }

  predicate Keyed(u: Js, k: string)
  {
    !Nullish(UserId(u)) && ToStr(UserId(u)) == k
  }

  /** The directory holds a key exactly when some user with an id spells
      it, and every entry has a truthy name. */
  lemma {:induction false} UsersMapKeys(us: seq<Js>, k: string)
    ensures k in UsersMapOf(us) <==> exists i :: 0 <= i < |us| && Keyed(us[i], k)
    ensures k in UsersMapOf(us) ==> Truthy(UsersMapOf(us)[k].name)
    decreases |us|
  {
    if us != [] {
      var init := us[..|us| - 1];
      UsersMapKeys(init, k);
      if exists i :: 0 <= i < |init| && Keyed(init[i], k) {
        var i :| 0 <= i < |init| && Keyed(init[i], k);
        assert us[i] == init[i];
      }
      if exists i :: 0 <= i < |us| && Keyed(us[i], k) {
        var i :| 0 <= i < |us| && Keyed(us[i], k);
        if i < |init| {
          assert init[i] == us[i];
        }
      }
    }
  }

  /** A later user with the same key overwrites an earlier one: the entry
      is that of the last user spelling the key. */
  lemma {:induction false} UsersMapLastWins(us: seq<Js>, i: int)
    requires 0 <= i < |us| && !Nullish(UserId(us[i]))
    requires forall j :: i < j < |us| ==> !Keyed(us[j], ToStr(UserId(us[i])))
    ensures ToStr(UserId(us[i])) in UsersMapOf(us)
    ensures UsersMapOf(us)[ToStr(UserId(us[i]))] == UserEntry(us[i])
    decreases |us|
  {
    var init := us[..|us| - 1];
    if i < |us| - 1 {
      assert init[i] == us[i];
      forall j | i < j < |init|
        ensures !Keyed(init[j], ToStr(UserId(us[i])))
      {
        assert init[j] == us[j];
      }
      UsersMapLastWins(init, i);
      assert !Keyed(us[|us| - 1], ToStr(UserId(us[i])));
    }
  }

  /** The follow-up effect for the signed-in user: `info?.id` truthy puts
      `{name: info.name, avatar: info.avatar}` under that id. */
  function MergeCurrentUser(users: map<string, UserInfo>, info: Js): (r: map<string, UserInfo>)
    ensures !Truthy(UserId(info)) ==> r == users
    ensures Truthy(UserId(info)) ==>
              (ToStr(UserId(info)) in r && r[ToStr(UserId(info))] == UserInfo(Field(info, "name"), Field(info, "avatar")))
    ensures forall k :: k in users && !(Truthy(UserId(info)) && k == ToStr(UserId(info))) ==> k in r && r[k] == users[k]
  {
    if Truthy(UserId(info)) then users[ToStr(UserId(info)) := UserInfo(Field(info, "name"), Field(info, "avatar"))]
    else users
  }

  // ---------------------------------------------------------------------
  // Reviewer names
  // ---------------------------------------------------------------------

  /** `r.userId ?? r.userID ?? r.user_id` */
  function RatingUserId(r: Js): Js
  {
    Coalesce(Field(r, "userId"), Coalesce(Field(r, "userID"), Field(r, "user_id")))
  }

  /** `Number(rating's user id) === Number(user?.id)` */
  predicate IsOwn(r: Js, user: Js, parse: string -> Option<int>)
  {
    SameNumber(NumberOf(RatingUserId(r), parse), NumberOf(OptField(user, "id"), parse))
  }

  /** `usersMap[uid]?.name` for the rating's numeric user id. */
  function DirectoryName(r: Js, users: map<string, UserInfo>, parse: string -> Option<int>): Js
  {
    var key := NumberKey(NumberOf(RatingUserId(r), parse));
    if key in users then users[key].name else Undefined
  }

  function CurrentUserName(user: Js): (n: Js)
    ensures Truthy(n)
  {
    Or(OptField(user, "fullName"), Or(OptField(user, "username"), Or(OptField(user, "displayName"),
      Or(OptField(user, "name"), Or(OptField(user, "email"), Str("Bạn"))))))
  }

  function OwnName(r: Js): (n: Js)
    ensures Truthy(n)
  {
    var u := Field(r, "user");
    Or(Field(r, "userName"), Or(Field(r, "username"), Or(Field(r, "fullName"), Or(Field(r, "displayName"),
      Or(And(u, Or(Field(u, "name"), Or(Field(u, "fullName"), Field(u, "username")))),
         Str("Người dùng " + ToStr(Coalesce(Field(r, "userId"), Str("")))))))))
  }

  const Anonymous := Str("Người dùng")

  /** getReviewerName: the directory's name, else the signed-in user's
      names when the rating is theirs, else the rating's own names. */
  function ReviewerName(r: Js, users: map<string, UserInfo>, user: Js, parse: string -> Option<int>): (n: Js)
    ensures Truthy(n)
    ensures !Truthy(r) ==> n == Anonymous
    ensures Truthy(r) && Truthy(DirectoryName(r, users, parse)) ==> n == DirectoryName(r, users, parse)
    ensures Truthy(r) && !Truthy(DirectoryName(r, users, parse)) && IsOwn(r, user, parse) ==> n == CurrentUserName(user)
    ensures Truthy(r) && !Truthy(DirectoryName(r, users, parse)) && !IsOwn(r, user, parse) ==> n == OwnName(r)
  {
    if !Truthy(r) then Anonymous
    else if Truthy(DirectoryName(r, users, parse)) then DirectoryName(r, users, parse)
    else if IsOwn(r, user, parse) then CurrentUserName(user)
    else OwnName(r)
  }

  /** The signed-in user with no name fields is "Bạn". */
  lemma NamelessSelfIsBan(r: Js, users: map<string, UserInfo>, user: Js, parse: string -> Option<int>)
    requires Truthy(r) && !Truthy(DirectoryName(r, users, parse)) && IsOwn(r, user, parse)
    requires forall f :: f in ["fullName", "username", "displayName", "name", "email"] ==> !Truthy(OptField(user, f))
    ensures ReviewerName(r, users, user, parse) == Str("Bạn")
  {
    assert !Truthy(OptField(user, "fullName")) && !Truthy(OptField(user, "username"));
    assert !Truthy(OptField(user, "displayName")) && !Truthy(OptField(user, "name"));
    assert !Truthy(OptField(user, "email"));
  }

  /** Someone else's rating without names reads "Người dùng <userId>". */
  lemma NamelessOtherIsNumbered(r: Js, users: map<string, UserInfo>, user: Js, parse: string -> Option<int>)
    requires Truthy(r) && !Truthy(DirectoryName(r, users, parse)) && !IsOwn(r, user, parse)
    requires forall f :: f in ["userName", "username", "fullName", "displayName", "user"] ==> !Truthy(Field(r, f))
    ensures ReviewerName(r, users, user, parse) == Str("Người dùng " + ToStr(Coalesce(Field(r, "userId"), Str(""))))
  {
    assert !Truthy(Field(r, "userName")) && !Truthy(Field(r, "username"));
    assert !Truthy(Field(r, "fullName")) && !Truthy(Field(r, "displayName"));
    assert !Truthy(Field(r, "user"));
  }

  /** A rating by a user the directory loaded shows that user's directory
      name, whoever is signed in. */
  lemma DirectoryNameWins(us: seq<Js>, i: int, r: Js, user: Js, parse: string -> Option<int>)
    requires Truthy(r) && 0 <= i < |us|
    requires Keyed(us[i], NumberKey(NumberOf(RatingUserId(r), parse)))
    ensures ReviewerName(r, UsersMapOf(us), user, parse) == DirectoryName(r, UsersMapOf(us), parse)
    ensures Truthy(DirectoryName(r, UsersMapOf(us), parse))
  {
    UsersMapKeys(us, NumberKey(NumberOf(RatingUserId(r), parse)));
  }

  // ---------------------------------------------------------------------
  // The order ratings are shown in
  // ---------------------------------------------------------------------

  /** What the comparator depends on besides the two ratings. */
  datatype Viewer = Viewer(user: Js, parse: string -> Option<int>, timeOf: Js -> int)

  /** 0 for the viewer's own ratings, 1 for the others. */
  function Rank(r: Js, v: Viewer): int
  {
    if IsOwn(r, v.user, v.parse) then 0 else 1
  }

  /** `new Date(r.createdAt || r.created_at || 0).getTime()` */
  function Time(r: Js, v: Viewer): int
  {
    v.timeOf(Or(Field(r, "createdAt"), Or(Field(r, "created_at"), Num(0))))
  }

  /** What the comparator looks at: the rank, then the time. */
  datatype Key = Key(rank: int, time: int)

  function KeyOf(r: Js, v: Viewer): Key
  {
    Key(Rank(r, v), Time(r, v))
  }

  /** a may stay before b. */
  predicate NotAfter(a: Key, b: Key)
  {
    a.rank < b.rank || (a.rank == b.rank && a.time >= b.time)
  }

  /** a must go before b. */
  predicate Precedes(a: Key, b: Key)
  {
    a.rank < b.rank || (a.rank == b.rank && a.time > b.time)
  }

  /** The comparator of the ratings list: own ratings first, then newest
      first. */
  function Compare(a: Js, b: Js, v: Viewer): (c: int)
    ensures c <= 0 <==> NotAfter(KeyOf(a, v), KeyOf(b, v))
    ensures c < 0 <==> Precedes(KeyOf(a, v), KeyOf(b, v))
    ensures c == 0 <==> KeyOf(a, v) == KeyOf(b, v)
  {
    var au := IsOwn(a, v.user, v.parse);
    var bu := IsOwn(b, v.user, v.parse);
    if au && !bu then -1
    else if !au && bu then 1
    else Time(b, v) - Time(a, v)
  }

  predicate Ordered(s: seq<Js>, key: Js -> Key)
  {
    forall i, j :: 0 <= i < j < |s| ==> NotAfter(key(s[i]), key(s[j]))
  }

  /** x put before the first element it must precede. */
  function Insert(s: seq<Js>, x: Js, key: Js -> Key): (r: seq<Js>)
    ensures multiset(r) == multiset(s) + multiset{x}
    ensures |r| == |s| + 1
  {
    if s == [] then [x]
    else if Precedes(key(x), key(s[0])) then [x] + s
    else
      HeadTail(s);
      [s[0]] + Insert(s[1..], x, key)
  }

  /** The stable sort by a key: each element in turn inserted after every
      earlier one it does not precede. */
  function SortBy(s: seq<Js>, key: Js -> Key): (r: seq<Js>)
    ensures multiset(r) == multiset(s)
    ensures |r| == |s|
  {
    if s == [] then []
    else
      assert s == s[..|s| - 1] + [s[|s| - 1]];
      Insert(SortBy(s[..|s| - 1], key), s[|s| - 1], key)
  }

  /** `[...items].sort(comparator)`: Array.prototype.sort is stable, and
      the comparator orders by KeyOf, so the list shown is the stable sort
      by KeyOf. */
  function SortRatings(s: seq<Js>, v: Viewer): (r: seq<Js>)
    ensures multiset(r) == multiset(s)
  {
    SortBy(s, (r: Js) => KeyOf(r, v))
  }

  lemma OrderedTail(s: seq<Js>, key: Js -> Key)
    requires s != [] && Ordered(s, key)
    ensures Ordered(s[1..], key)
    ensures forall y :: y in s[1..] ==> NotAfter(key(s[0]), key(y))
  {
    forall i, j | 0 <= i < j < |s[1..]|
      ensures NotAfter(key(s[1..][i]), key(s[1..][j]))
    {
      assert s[1..][i] == s[i + 1] && s[1..][j] == s[j + 1];
    }
    forall y | y in s[1..]
      ensures NotAfter(key(s[0]), key(y))
    {
      var j :| 0 <= j < |s[1..]| && s[1..][j] == y;
      assert s[j + 1] == y;
    }
  }

  /** x placed in front of an ordered list whose head it precedes. */
  lemma ConsOrdered(x: Js, s: seq<Js>, key: Js -> Key)
    requires Ordered(s, key)
    requires forall y :: y in s ==> NotAfter(key(x), key(y))
    ensures Ordered([x] + s, key)
  {
    var r := [x] + s;
    forall i, j | 0 <= i < j < |r|
      ensures NotAfter(key(r[i]), key(r[j]))
    {
      assert r[j] == s[j - 1];
      if i > 0 {
        assert r[i] == s[i - 1];
      } else {
        assert s[j - 1] in s;
      }
    }
  }

  lemma {:induction false} InsertOrdered(s: seq<Js>, x: Js, key: Js -> Key)
    requires Ordered(s, key)
    ensures Ordered(Insert(s, x, key), key)
    decreases |s|
  {
    if s != [] {
      OrderedTail(s, key);
      if Precedes(key(x), key(s[0])) {
        forall y | y in s
          ensures NotAfter(key(x), key(y))
        {
          if y != s[0] {
            assert y in s[1..];
          }
        }
        ConsOrdered(x, s, key);
      } else {
        var tail := Insert(s[1..], x, key);
        InsertOrdered(s[1..], x, key);
        forall y | y in tail
          ensures NotAfter(key(s[0]), key(y))
        {
          assert y in multiset(tail);
          if y != x {
            assert y in multiset(s[1..]);
          }
        }
        ConsOrdered(s[0], tail, key);
      }
    }
  }

  lemma {:induction false} SortByOrdered(s: seq<Js>, key: Js -> Key)
    ensures Ordered(SortBy(s, key), key)
    decreases |s|
  {
    if s != [] {
      SortByOrdered(s[..|s| - 1], key);
      InsertOrdered(SortBy(s[..|s| - 1], key), s[|s| - 1], key);
    }
  }

  /** The viewer's own ratings come before everybody else's, and within
      either group newer ratings come first. */
  lemma OwnRatingsFirst(s: seq<Js>, v: Viewer, i: int, j: int)
    requires 0 <= i < j < |SortRatings(s, v)|
    ensures var r := SortRatings(s, v);
            Compare(r[i], r[j], v) <= 0
            && Rank(r[i], v) <= Rank(r[j], v)
            && (Rank(r[i], v) == Rank(r[j], v) ==> Time(r[i], v) >= Time(r[j], v))
  {
    var key := (r: Js) => KeyOf(r, v);
    SortByOrdered(s, key);
    var r := SortRatings(s, v);
    assert NotAfter(key(r[i]), key(r[j]));
  }

  /** The elements of s whose key is k, in order. */
  function Tied(s: seq<Js>, k: Key, key: Js -> Key): (r: seq<Js>)
    ensures forall i :: 0 <= i < |r| ==> key(r[i]) == k
    ensures |r| <= |s|
  {
    if s == [] then []
    else (if key(s[0]) == k then [s[0]] else []) + Tied(s[1..], k, key)
  }

  lemma {:induction false} TiedAppend(s: seq<Js>, x: Js, k: Key, key: Js -> Key)
    ensures Tied(s + [x], k, key) == Tied(s, k, key) + Tied([x], k, key)
    decreases |s|
  {
    if s != [] {
      assert (s + [x])[1..] == s[1..] + [x];
      TiedAppend(s[1..], x, k, key);
    }
  }

  lemma {:induction false} TiedNone(s: seq<Js>, k: Key, key: Js -> Key)
    requires forall y :: y in s ==> key(y) != k
    ensures Tied(s, k, key) == []
    decreases |s|
  {
    if s != [] {
      assert s[0] in s;
      assert forall y :: y in s[1..] ==> y in s;
      TiedNone(s[1..], k, key);
    }
  }

  lemma {:induction false} InsertTied(s: seq<Js>, x: Js, k: Key, key: Js -> Key)
    requires Ordered(s, key)
    ensures Tied(Insert(s, x, key), k, key) == Tied(s, k, key) + Tied([x], k, key)
    decreases |s|
  {
    TiedCons(x, [], k, key);
    assert Tied([], k, key) == [];
    if s == [] {
    } else if Precedes(key(x), key(s[0])) {
      assert Insert(s, x, key) == [x] + s;
      TiedFront(s, x, k, key);
    } else {
      OrderedTail(s, key);
      assert Insert(s, x, key) == [s[0]] + Insert(s[1..], x, key);
      InsertTied(s[1..], x, k, key);
      TiedCons(s[0], Insert(s[1..], x, key), k, key);
      TiedCons(s[0], s[1..], k, key);
      HeadTail(s);
      Regroup(if key(s[0]) == k then [s[0]] else [], Tied(s[1..], k, key), Tied([x], k, key));
    }
  }

  /** x put in front of an ordered list whose head it must precede has
      no tie behind it. */
  lemma TiedFront(s: seq<Js>, x: Js, k: Key, key: Js -> Key)
    requires Ordered(s, key) && s != [] && Precedes(key(x), key(s[0]))
    ensures Tied([x] + s, k, key) == Tied(s, k, key) + Tied([x], k, key)
  {
    TiedCons(x, [], k, key);
    assert Tied([], k, key) == [];
    TiedCons(x, s, k, key);
    if key(x) == k {
      OrderedTail(s, key);
      forall y | y in s
        ensures key(y) != k
      {
        if y != s[0] {
          assert y in s[1..];
        }
      }
      TiedNone(s, k, key);
    }
  }

  lemma TiedCons(x: Js, rest: seq<Js>, k: Key, key: Js -> Key)
    ensures Tied([x] + rest, k, key) == (if key(x) == k then [x] else []) + Tied(rest, k, key)
  {
    assert ([x] + rest)[1..] == rest;
  }

  lemma {:induction false} SortByStable(s: seq<Js>, k: Key, key: Js -> Key)
    ensures Tied(SortBy(s, key), k, key) == Tied(s, k, key)
    decreases |s|
  {
    if s != [] {
      var init := s[..|s| - 1];
      SortByStable(init, k, key);
      SortByOrdered(init, key);
      InsertTied(SortBy(init, key), s[|s| - 1], k, key);
      assert s == init + [s[|s| - 1]];
      TiedAppend(init, s[|s| - 1], k, key);
    }
  }

  /** Stability: ratings the comparator cannot tell apart (same rank, same
      time) keep the order the server sent them in. */
  lemma SortRatingsStable(s: seq<Js>, v: Viewer, k: Key)
    ensures Tied(SortRatings(s, v), k, (r: Js) => KeyOf(r, v)) == Tied(s, k, (r: Js) => KeyOf(r, v))
  {
    SortByStable(s, k, (r: Js) => KeyOf(r, v));
  }

  // ---------------------------------------------------------------------
  // The ratings payload
  // ---------------------------------------------------------------------

  datatype Ratings = Ratings(items: seq<Js>, page: Js, size: Js, totalPages: Js)

  /** The initial state, and the state after a failed load. */
  const NoRatings := Ratings([], Num(0), Num(10), Num(1))

  /** `list?.items`, `list?.content`, `list?.data?.items`, a bare array. */
  function RatingItems(list: Js): (r: seq<Js>)
    ensures OptField(list, "items").Arr? ==> r == OptField(list, "items").items
    ensures list.Arr? ==> r == list.items
  {
    var cs := [OptField(list, "items"), OptField(list, "content"), OptField(OptField(list, "data"), "items"), list];
    assert list.Arr? ==> !cs[0].Arr? && !cs[1].Arr? && !cs[2].Arr? && cs[3] == list;
    FirstArray(cs)
  }

  function RatingsOf(reply: Outcome): (r: Ratings)
    ensures reply.Failed? ==> r == NoRatings
    ensures reply.Done? && reply.value.Arr? ==> r == NoRatings.(items := reply.value.items)
    ensures reply.Done? ==> r.items == RatingItems(reply.value)
    ensures reply.Done? && !Nullish(OptField(reply.value, "page")) ==> r.page == OptField(reply.value, "page")
  {
    match reply
    case Failed(_) => NoRatings
    case Done(list) =>
      Ratings(RatingItems(list), Coalesce(OptField(list, "page"), Num(0)),
              Coalesce(OptField(list, "size"), Num(10)), Coalesce(OptField(list, "totalPages"), Num(1)))
  }

  /** The list falls through `items`, `content` and `data.items` in that
      order, whichever is an array first. */
  lemma RatingItemsOrder(list: Js)
    requires !OptField(list, "items").Arr?
    ensures OptField(list, "content").Arr? ==> RatingItems(list) == OptField(list, "content").items
    ensures !OptField(list, "content").Arr? && OptField(OptField(list, "data"), "items").Arr? ==>
              RatingItems(list) == OptField(OptField(list, "data"), "items").items
    ensures list.Obj? && !OptField(list, "content").Arr? && !OptField(OptField(list, "data"), "items").Arr? ==>
              RatingItems(list) == []
  {
    var cs := [OptField(list, "items"), OptField(list, "content"), OptField(OptField(list, "data"), "items"), list];
    assert cs[0] == OptField(list, "items") && cs[1] == OptField(list, "content");
    assert cs[2] == OptField(OptField(list, "data"), "items") && cs[3] == list;
    if list.Obj? && !OptField(list, "content").Arr? && !OptField(OptField(list, "data"), "items").Arr? {
      assert forall i :: 0 <= i < |cs| ==> !cs[i].Arr?;
    }
  }

  // ---------------------------------------------------------------------
  // Director line and play button
  // ---------------------------------------------------------------------

  /** directorName, else the non-empty directors array joined with ", ",
      else the trimmed non-blank directors string, else "". */
  function DirectorText(movie: Js): (r: Js)
    ensures Truthy(Field(movie, "directorName")) ==> r == Field(movie, "directorName")
    ensures !Truthy(Field(movie, "directorName")) ==> r.Str?
  {
    var ds := Field(movie, "directors");
    Or(Field(movie, "directorName"),
       Str(if ds.Arr? && |ds.items| > 0 then JoinItems(ds.items, ", ")
           else if ds.Str? && Trim(ds.s) != "" then Trim(ds.s)
           else ""))
  }

  /** Two listed directors read "A, B". */
  lemma TwoDirectors(movie: Js, a: string, b: string)
    requires !Truthy(Field(movie, "directorName")) && Field(movie, "directors") == Arr([Str(a), Str(b)])
    ensures DirectorText(movie) == Str(a + ", " + b)
  {
    var ds := [Str(a), Str(b)];
    assert ds[1..] == [Str(b)];
    assert JoinItems([Str(b)], ", ") == b;
    assert JoinItems(ds, ", ") == a + ", " + b;
  }

  /** A directors string is shown trimmed, and a blank one shows
      nothing. */
  lemma DirectorStringTrimmed(movie: Js)
    requires !Truthy(Field(movie, "directorName")) && Field(movie, "directors").Str?
    ensures DirectorText(movie) == Str(Trim(Field(movie, "directors").s))
    ensures DirectorText(movie) == Str("") <==> IsJsBlank(Field(movie, "directors").s)
  {
    TrimEmptyIffBlank(Field(movie, "directors").s);
  }

  /** `!movie.isAvailable || !(movie.streamingUrl || movie.videoUrl)` */
  predicate PlayDisabled(movie: Js)
  {
    !Truthy(Field(movie, "isAvailable")) || !Truthy(Or(Field(movie, "streamingUrl"), Field(movie, "videoUrl")))
  }

  function PlayLabel(movie: Js): (text: string)
    ensures text == "Xem ngay" <==> Truthy(Field(movie, "isAvailable"))
                                      && (Truthy(Field(movie, "streamingUrl")) || Truthy(Field(movie, "videoUrl")))
    ensures text == "Xem ngay" || text == "Chưa có nguồn"
  {
    if PlayDisabled(movie) then "Chưa có nguồn" else "Xem ngay"
  }

  // ---------------------------------------------------------------------
  // The viewer's rating
  // ---------------------------------------------------------------------

  /** The viewer's rating state: the rating, the stars and the comment. */
  datatype Mine = Mine(rating: Js, stars: Js, comment: Js)

  const DefaultStars := 3

  /** Loading the viewer's rating: a rating with numeric stars is taken
      as it is; anything else, or a failure, resets to 3 stars and no
      comment. */
  function MineOf(reply: Outcome): (m: Mine)
    ensures reply.Done? && Truthy(reply.value) && OptField(reply.value, "stars").Num? ==>
              m.rating == reply.value && m.stars == OptField(reply.value, "stars")
              && m.comment == Or(Field(reply.value, "comment"), Str(""))
    ensures !(reply.Done? && Truthy(reply.value) && OptField(reply.value, "stars").Num?) ==>
              m == Mine(Null, Num(DefaultStars), Str(""))
  {
    if reply.Done? && Truthy(reply.value) && OptField(reply.value, "stars").Num? then
      Mine(reply.value, OptField(reply.value, "stars"), Or(Field(reply.value, "comment"), Str("")))
    else Mine(Null, Num(DefaultStars), Str(""))
  }

  /** What submitRating does: send the signed-out viewer to the login
      page, do nothing without a movie id, else update the viewer's
      existing rating or create one. */
  datatype RatingRequest =
    | ToLogin
    | NoRequest
    | Update(ratingId: Js, stars: Js, comment: string)
    | Create(movieId: Option<int>, stars: Js, comment: string)

  function SubmitRating(authenticated: bool, movie: Js, userRating: Js, userStars: Js, userComment: string,
                        parse: string -> Option<int>): (q: RatingRequest)
    ensures !authenticated <==> q.ToLogin?
    ensures authenticated && !Truthy(OptField(movie, "id")) <==> q.NoRequest?
    ensures q.Update? ==> q.ratingId == OptField(userRating, "id") && Truthy(q.ratingId) && q.comment == userComment
    ensures q.Create? ==> !Truthy(OptField(userRating, "id")) && q.comment == Trim(userComment)
                          && q.movieId == NumberOf(OptField(movie, "id"), parse)
    ensures (q.Update? || q.Create?) ==> Truthy(q.stars)
                                         && (Truthy(userStars) ==> q.stars == userStars)
                                         && (!Truthy(userStars) ==> q.stars == Num(DefaultStars))
  {
    if !authenticated then ToLogin
    else if !Truthy(OptField(movie, "id")) then NoRequest
    else
      var stars := Or(userStars, Num(DefaultStars));
      if Truthy(OptField(userRating, "id")) then Update(OptField(userRating, "id"), stars, userComment)
      else Create(NumberOf(OptField(movie, "id"), parse), stars, Trim(userComment))
  }
}
