// The session store of the front end (src/contexts/AuthContext.jsx): the
// signed-in user and token, the loading flag, and the two localStorage
// keys that persist them across reloads.
//
// JSON.parse and JSON.stringify are passed in as functions: `parse` gives
// None where JSON.parse throws.

module Auth {
  import opened Wrappers
  import opened Js

  const TokenKey := "auth_token"
  const UserKey := "auth_user"

  /** localStorage.getItem: null for a missing key. */
  function Stored(storage: map<string, string>, key: string): Js
  {
    if key in storage then Str(storage[key]) else Null
  }

  /** The storage after a login: both keys written, the token as
      localStorage renders it (String(token)). */
  function StorageAfterLogin(storage: map<string, string>, userData: Js, authToken: Js,
                             stringify: Js -> string): (s: map<string, string>)
    ensures TokenKey in s && UserKey in s
    ensures s[TokenKey] == ToStr(authToken) && s[UserKey] == stringify(userData)
    ensures forall k :: k in storage && k != TokenKey && k != UserKey ==> k in s && s[k] == storage[k]
  {
    storage[TokenKey := ToStr(authToken)][UserKey := stringify(userData)]
  }

  function StorageAfterLogout(storage: map<string, string>): (s: map<string, string>)
    ensures TokenKey !in s && UserKey !in s
    ensures forall k :: k in storage && k != TokenKey && k != UserKey ==> k in s && s[k] == storage[k]
    ensures forall k :: k in s ==> k in storage
  {
    storage - {TokenKey, UserKey}
  }

  /** The state the startup effect leaves: both stored values must be
      truthy (present and non-empty); then the token is taken and the user
      parsed. A user that does not parse leaves the token already set, the
      user unset, and both keys removed. Loading ends either way. */
  datatype Restored = Restored(user: Js, token: Js, storage: map<string, string>)

  function RestoreOf(user: Js, token: Js, storage: map<string, string>, parse: string -> Option<Js>): Restored
  {
    var storedToken := Stored(storage, TokenKey);
    var storedUser := Stored(storage, UserKey);
    if Truthy(storedToken) && Truthy(storedUser) then
      match parse(storedUser.s)
      case Some(u) => Restored(u, storedToken, storage)
      case None => Restored(user, storedToken, StorageAfterLogout(storage))
    else Restored(user, token, storage)
  }

  class AuthProvider {
    var user: Js
    var token: Js
    var loading: bool
    var storage: map<string, string>

    /** A fresh provider: nobody signed in, still loading. */
    constructor (storage: map<string, string>)
      ensures user == Null && token == Null && loading && this.storage == storage
    {
      user := Null;
      token := Null;
      loading := true;
      this.storage := storage;
    }

    /** `!!user && !!token` */
    predicate IsAuthenticated()
      reads this
    {
      Truthy(user) && Truthy(token)
    }

    /** The startup effect. */
    method Restore(parse: string -> Option<Js>)
      modifies this
      ensures Restored(user, token, storage) == RestoreOf(old(user), old(token), old(storage), parse)
      ensures !loading
    {
      var storedToken := Stored(storage, TokenKey);
      var storedUser := Stored(storage, UserKey);
      if Truthy(storedToken) && Truthy(storedUser) {
        token := storedToken;
        var parsed := parse(storedUser.s);
        if parsed.Some? {
          user := parsed.value;
        } else {
          storage := storage - {TokenKey, UserKey};
        }
      }
      loading := false;
    }

    method Login(userData: Js, authToken: Js, stringify: Js -> string)
      modifies this
      ensures user == userData && token == authToken && loading == old(loading)
      ensures storage == StorageAfterLogin(old(storage), userData, authToken, stringify)
      ensures IsAuthenticated() <==> Truthy(userData) && Truthy(authToken)
    {
      user := userData;
      token := authToken;
      storage := storage[TokenKey := ToStr(authToken)];
      storage := storage[UserKey := stringify(userData)];
    }

    method Logout()
      modifies this
      ensures user == Null && token == Null && loading == old(loading)
      ensures storage == StorageAfterLogout(old(storage))
      ensures !IsAuthenticated()
    {
      user := Null;
      token := Null;
      storage := storage - {TokenKey};
      storage := storage - {UserKey};
    }

    /** Replaces and stores the user; the token and its stored copy stay. */
    method UpdateUser(userData: Js, stringify: Js -> string)
      modifies this
      ensures user == userData && token == old(token) && loading == old(loading)
      ensures storage == old(storage)[UserKey := stringify(userData)]
      ensures TokenKey in old(storage) ==> TokenKey in storage && storage[TokenKey] == old(storage)[TokenKey]
    {
      user := userData;
      storage := storage[UserKey := stringify(userData)];
    }
  }

  /** A login survives a reload: a fresh provider restoring from the
      storage a login wrote gets the same user back, and the token as its
      stored string, whenever the user's JSON parses back to the user and
      both stored strings are non-empty. */
  lemma LoginThenRestore(storage: map<string, string>, userData: Js, authToken: Js,
                         stringify: Js -> string, parse: string -> Option<Js>)
    requires parse(stringify(userData)) == Some(userData)
    requires ToStr(authToken) != "" && stringify(userData) != ""
    ensures var s := StorageAfterLogin(storage, userData, authToken, stringify);
            RestoreOf(Null, Null, s, parse) == Restored(userData, Str(ToStr(authToken)), s)
  {
  }

  /** After a logout nothing is restored on the next start. */
  lemma LogoutThenRestore(storage: map<string, string>, parse: string -> Option<Js>)
    ensures var s := StorageAfterLogout(storage);
            RestoreOf(Null, Null, s, parse) == Restored(Null, Null, s)
  {
  }

  /** A stored user that does not parse clears both keys, and the session
      stays signed out. */
  lemma BrokenUserClears(storage: map<string, string>, parse: string -> Option<Js>)
    requires TokenKey in storage && UserKey in storage
    requires storage[TokenKey] != "" && storage[UserKey] != ""
    requires parse(storage[UserKey]).None?
    ensures var r := RestoreOf(Null, Null, storage, parse);
            TokenKey !in r.storage && UserKey !in r.storage
            && r.user == Null && !(Truthy(r.user) && Truthy(r.token))
  {
  }
}
