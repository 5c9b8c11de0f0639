/**
 * The client's session (frontend/src/context/AuthContext.jsx): the signed-in user kept in
 * component state and mirrored in the browser's `localStorage` under two keys, `token` and
 * `user`. The user is stored as JSON text; `JSON.stringify` and `JSON.parse` are passed in as
 * functions, a `None` from `parse` standing for a parse that throws.
 */
module AuthContext {
  import opened Common

  const TokenKey: string := "token"

  const UserKey: string := "user"

  /** `localStorage.getItem(key)` read as a truth value: the key is there and its text is not empty. */
  predicate Stored(storage: map<string, string>, key: string) {
    key in storage && storage[key] != ""
  }

  /**
   * The user the session starts with: the parsed `user` entry when both entries are stored
   * (and non-empty) and the text parses; otherwise no user.
   */
  function InitialUser<U>(storage: map<string, string>, parse: string -> Option<U>): (r: Option<U>)
    ensures r.Some? ==> Stored(storage, TokenKey) && Stored(storage, UserKey) && r == parse(storage[UserKey])
    ensures Stored(storage, TokenKey) && Stored(storage, UserKey) ==> r == parse(storage[UserKey])
  {
    if Stored(storage, TokenKey) && Stored(storage, UserKey) then parse(storage[UserKey]) else None
  }

  /** The storage after `login`: both entries written. */
  function SignedIn(storage: map<string, string>, token: string, userText: string): (r: map<string, string>)
    ensures r.Keys == storage.Keys + {TokenKey, UserKey}
    ensures r[TokenKey] == token && r[UserKey] == userText
    ensures forall k :: k in storage && k != TokenKey && k != UserKey ==> r[k] == storage[k]
  {
    storage[TokenKey := token][UserKey := userText]
  }

  /** The storage after `logout`: both entries removed. */
  function SignedOut(storage: map<string, string>): (r: map<string, string>)
    ensures TokenKey !in r && UserKey !in r
    ensures forall k :: k in storage && k != TokenKey && k != UserKey ==> k in r && r[k] == storage[k]
    ensures r.Keys <= storage.Keys
  {
    storage - {TokenKey, UserKey}
  }

  /** The storage after `updateUser`: the user entry rewritten, the token entry untouched. */
  function UserReplaced(storage: map<string, string>, userText: string): (r: map<string, string>)
    ensures r.Keys == storage.Keys + {UserKey}
    ensures r[UserKey] == userText
    ensures forall k :: k in storage && k != UserKey ==> r[k] == storage[k]
  {
    storage[UserKey := userText]
  }

  /** `AuthProvider`'s state: the browser's storage and the current user. */
  class AuthSession<U> {
    var storage: map<string, string>
    var user: Option<U>

    /** The provider mounting over `storage`, restoring the user it holds. */
    constructor (storage0: map<string, string>, parse: string -> Option<U>)
      ensures storage == storage0 && user == InitialUser(storage0, parse)
    {
      storage := storage0;
      user := InitialUser(storage0, parse);
    }

    /** `login(token, userData)`. */
    method Login(token: string, userData: U, stringify: U -> string)
      modifies this
      ensures storage == SignedIn(old(storage), token, stringify(userData))
      ensures user == Some(userData)
    {
      storage := storage[TokenKey := token];
      storage := storage[UserKey := stringify(userData)];
      user := Some(userData);
    }

    /** `logout()`. */
    method Logout()
      modifies this
      ensures storage == SignedOut(old(storage))
      ensures user == None
    {
      storage := storage - {TokenKey};
      storage := storage - {UserKey};
      user := None;
    }

    /** `updateUser(userData)`. */
    method UpdateUser(userData: U, stringify: U -> string)
      modifies this
      ensures storage == UserReplaced(old(storage), stringify(userData))
      ensures user == Some(userData)
    {
      storage := storage[UserKey := stringify(userData)];
      user := Some(userData);
    }
  }

  /**
   * After `login` with a non-empty token, a page reload restores the same user, provided the
   * user's JSON text is not empty and parses back to it.
   */
  lemma ReloadAfterLoginRestoresUser<U>(
    storage: map<string, string>, token: string, u: U, parse: string -> Option<U>, stringify: U -> string)
    requires token != "" && stringify(u) != "" && parse(stringify(u)) == Some(u)
    ensures InitialUser(SignedIn(storage, token, stringify(u)), parse) == Some(u)
  {
  }

  /** After `logout`, a page reload starts with no user, whatever else the storage holds. */
  lemma ReloadAfterLogoutHasNoUser<U>(storage: map<string, string>, parse: string -> Option<U>)
    ensures InitialUser(SignedOut(storage), parse) == None
  {
  }

  /**
   * `updateUser` leaves the token alone, so a reload restores the updated user exactly when
   * a token was stored before.
   */
  lemma ReloadAfterUpdateRestoresUpdatedUser<U>(
    storage: map<string, string>, u: U, parse: string -> Option<U>, stringify: U -> string)
    requires stringify(u) != "" && parse(stringify(u)) == Some(u)
    ensures Stored(UserReplaced(storage, stringify(u)), TokenKey) <==> Stored(storage, TokenKey)
    ensures InitialUser(UserReplaced(storage, stringify(u)), parse) == if Stored(storage, TokenKey) then Some(u) else None
  {
  }
}
