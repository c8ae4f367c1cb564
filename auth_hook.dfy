/** The frontend's `useAuth` hook: the session kept in two `localStorage`
    entries and mirrored in the React state. `localStorage` is a map from
    key to text; `JSON.parse` and `JSON.stringify` are parameters. */
module AuthHook {
  import opened Common
  import opened Schemas

  const TokenKey := "accessToken"
  const UserKey := "userProfile"

  type Storage = map<string, string>

  datatype AuthState = AuthState(accessToken: Option<string>, user: Option<Json>, isSignedIn: bool)

  const SignedOut := AuthState(None, None, false)

  function Get(storage: Storage, key: string): Option<string> {
    if key in storage then Some(storage[key]) else None
  }

  /** A stored value is truthy when present and non-empty. */
  predicate Truthy(v: Option<string>) {
    v.Some? && v.value != ""
  }

  /** A parsed JSON `null` is the JavaScript null. */
  function UserOf(v: Json): Option<Json> {
    if v.JNull? then None else Some(v)
  }

  /** The storage after `signOut`: both session keys removed. */
  function SignedOutStorage(storage: Storage): (r: Storage)
    ensures TokenKey !in r && UserKey !in r
    ensures forall k :: k != TokenKey && k != UserKey ==> Get(r, k) == Get(storage, k)
  {
    storage - {TokenKey, UserKey}
  }

  /** The storage after `signIn`: the token and the serialised user written. */
  function SignedInStorage(storage: Storage, accessToken: string, serialised: string): (r: Storage)
    ensures Get(r, TokenKey) == Some(accessToken) && Get(r, UserKey) == Some(serialised)
    ensures forall k :: k != TokenKey && k != UserKey ==> Get(r, k) == Get(storage, k)
  {
    storage[TokenKey := accessToken][UserKey := serialised]
  }

  /** The outcome of `loadFromStorage` on the state and on the storage. A
      stored user that does not parse throws, and the catch signs out. */
  function Load(storage: Storage, parse: string -> Option<Json>): (AuthState, Storage) {
    var token := Get(storage, TokenKey);
    var user := Get(storage, UserKey);
    if Truthy(user) && parse(user.value).None? then (SignedOut, SignedOutStorage(storage))
    else
      var parsed := if Truthy(user) then UserOf(parse(user.value).value) else None;
      (AuthState(token, parsed, Truthy(token)), storage)
  }

  /** After a load, signed in holds iff a non-empty token is stored. */
  lemma LoadSignedInIffToken(storage: Storage, parse: string -> Option<Json>)
    ensures Load(storage, parse).0.isSignedIn <==> Truthy(Get(Load(storage, parse).1, TokenKey))
    ensures Load(storage, parse).1 == storage || Load(storage, parse) == (SignedOut, SignedOutStorage(storage))
  {
  }

  /** Loading again changes nothing: the storage a load leaves behind loads
      to the same state. */
  lemma LoadIdempotent(storage: Storage, parse: string -> Option<Json>)
    ensures Load(Load(storage, parse).1, parse) == Load(storage, parse)
  {
    var (s1, st1) := Load(storage, parse);
    if st1 != storage {
      assert Get(st1, UserKey) == None && Get(st1, TokenKey) == None;
    }
  }

  /** A session written by `signIn` reads back as that session, when the
      serialiser and the parser agree on the user and the token is non-empty. */
  lemma SignInThenLoad(storage: Storage, accessToken: string, user: Json,
                       stringify: Json -> string, parse: string -> Option<Json>)
    requires accessToken != "" && !user.JNull? && stringify(user) != ""
    requires parse(stringify(user)) == Some(user)
    ensures var st := SignedInStorage(storage, accessToken, stringify(user));
      Load(st, parse) == (AuthState(Some(accessToken), Some(user), true), st)
  {
  }

  /** After `signOut` a load reads the signed-out state and leaves the storage alone. */
  lemma SignOutThenLoad(storage: Storage, parse: string -> Option<Json>)
    ensures Load(SignedOutStorage(storage), parse) == (SignedOut, SignedOutStorage(storage))
  {
    assert Get(SignedOutStorage(storage), UserKey) == None;
    assert Get(SignedOutStorage(storage), TokenKey) == None;
  }

  class AuthHook {
    var storage: Storage
    var state: AuthState
    var loading: bool

    /** The initial hook state: signed out, loading, over the browser's storage. */
    constructor (initial: Storage)
      ensures storage == initial && state == SignedOut && loading
    {
      storage := initial;
      state := SignedOut;
      loading := true;
    }

    /** `signOut`: both keys removed, every other key untouched, the state
        reset. The `AUTH_EVENT` it dispatches runs `loadFromStorage` at once,
        which reads the signed-out session back and clears `loading`. */
    method SignOut(parse: string -> Option<Json>)
      modifies this
      decreases 1
      ensures storage == SignedOutStorage(old(storage))
      ensures state == SignedOut
      ensures !loading
    {
      storage := storage - {TokenKey};
      storage := storage - {UserKey};
      state := AuthState(None, None, false);
      assert storage == SignedOutStorage(old(storage));
      SignOutThenLoad(old(storage), parse);
      LoadFromStorage(parse);
    }

    /** `loadFromStorage`, then `loading` cleared in the `finally`. A stored
        user that does not parse lands in the catch, whose `signOut` reloads
        once more from the cleared storage. */
    method LoadFromStorage(parse: string -> Option<Json>)
      modifies this
      decreases if UserKey in storage then 2 else 0
      ensures (state, storage) == Load(old(storage), parse)
      ensures !loading
    {
      var token := Get(storage, TokenKey);
      var user := Get(storage, UserKey);
      if Truthy(user) {
        var parsed := parse(user.value);
        if parsed.None? {
          SignOut(parse);
        } else {
          state := AuthState(token, UserOf(parsed.value), Truthy(token));
        }
      } else {
        state := AuthState(token, None, Truthy(token));
      }
      loading := false;
    }

    /** `signIn`: the token and the serialised user stored and the state
        signed in; the `AUTH_EVENT` it dispatches then reloads the state from
        the new storage, so the user held is the parsed copy. When the
        serialiser and the parser agree, that is the session just written. */
    method SignIn(accessToken: string, user: Json, stringify: Json -> string, parse: string -> Option<Json>)
      modifies this
      ensures (state, storage) == Load(SignedInStorage(old(storage), accessToken, stringify(user)), parse)
      ensures !loading
      ensures accessToken != "" && !user.JNull? && stringify(user) != "" && parse(stringify(user)) == Some(user) ==>
        && storage == SignedInStorage(old(storage), accessToken, stringify(user))
        && state == AuthState(Some(accessToken), Some(user), true)
    {
      storage := storage[TokenKey := accessToken];
      storage := storage[UserKey := stringify(user)];
      state := AuthState(Some(accessToken), Some(user), true);
      assert storage == SignedInStorage(old(storage), accessToken, stringify(user));
      if accessToken != "" && !user.JNull? && stringify(user) != "" && parse(stringify(user)) == Some(user) {
        SignInThenLoad(old(storage), accessToken, user, stringify, parse);
      }
      LoadFromStorage(parse);
    }
  }
}
