/** The authentication flag kept by `AuthProvider` (`AuthContext.jsx`): a state record plus two
    `localStorage` entries, changed by the mount effect, `login` and `logout`. */
module Auth {
  import opened Wrappers
  import Store

  const TokenKey: string := "authToken"
  const UserIdKey: string := "userId"

  /** What the login widget passes to `login`. */
  datatype LoginData = LoginData(userId: string, token: string)

  /** The `user` value: the mount effect builds `{id, token}`, while `login` stores the object it was
      given, `{userId, token}`; the two shapes differ. */
  datatype User = Restored(id: string, token: string) | LoggedIn(data: LoginData)

  /** The provider's state. */
  datatype AuthState = AuthState(isAuthenticated: bool, user: Option<User>, loading: bool)

  /** The provider's state and the storage it reads and writes. */
  datatype Provider = Provider(storage: map<string, string>, state: AuthState)

  /** The state before the mount effect runs. */
  const Initial: AuthState := AuthState(false, None, true)

  /** `localStorage.getItem(key)` is truthy in JavaScript: neither null nor the empty string. */
  predicate Truthy(storage: map<string, string>, key: string)
    ensures Truthy(storage, key) <==> Store.GetItem(storage, key) != Store.Null && Store.GetItem(storage, key) != Store.Str("")
  {
    key in storage && storage[key] != ""
  }

  /** The mount effect, run on the initial state: authenticated with `{id, token}` when both entries
      are truthy, unchanged otherwise; loading ends either way. Storage is only read. */
  function Mount(storage: map<string, string>): (p: Provider)
    ensures p.storage == storage
    ensures !p.state.loading
    ensures p.state.isAuthenticated <==> Truthy(storage, TokenKey) && Truthy(storage, UserIdKey)
    ensures p.state.isAuthenticated ==> p.state.user == Some(Restored(storage[UserIdKey], storage[TokenKey]))
    ensures !p.state.isAuthenticated ==> p.state.user.None?
  {
    var state :=
      if Truthy(storage, TokenKey) && Truthy(storage, UserIdKey)
      then Initial.(isAuthenticated := true, user := Some(Restored(storage[UserIdKey], storage[TokenKey])))
      else Initial;
    Provider(storage, state.(loading := false))
  }

  /** `login`: writes both entries and sets the user to the given record, authenticated. Nothing
      else in storage or state changes. */
  function Login(p: Provider, data: LoginData): (p': Provider)
    ensures p'.storage.Keys == p.storage.Keys + {TokenKey, UserIdKey}
    ensures p'.storage[TokenKey] == data.token && p'.storage[UserIdKey] == data.userId
    ensures forall k :: k in p.storage && k != TokenKey && k != UserIdKey ==> p'.storage[k] == p.storage[k]
    ensures p'.state == p.state.(user := Some(LoggedIn(data)), isAuthenticated := true)
  {
    Provider(p.storage[TokenKey := data.token][UserIdKey := data.userId],
             p.state.(user := Some(LoggedIn(data)), isAuthenticated := true))
  }

  /** `logout`: removes both entries, clears the user and the flag. Nothing else changes. */
  function Logout(p: Provider): (p': Provider)
    ensures TokenKey !in p'.storage && UserIdKey !in p'.storage
    ensures p'.storage.Keys == p.storage.Keys - {TokenKey, UserIdKey}
    ensures forall k :: k in p'.storage ==> p'.storage[k] == p.storage[k]
    ensures p'.state == p.state.(user := None, isAuthenticated := false)
  {
    Provider(p.storage - {TokenKey, UserIdKey}, p.state.(user := None, isAuthenticated := false))
  }

  /** Round trip: after logging in with a non-empty id and token, a fresh mount from the same storage
      is authenticated as the same user (in the `{id, token}` shape). */
  lemma LoginThenMount(p: Provider, data: LoginData)
    requires data.userId != "" && data.token != ""
    ensures Mount(Login(p, data).storage).state ==
              AuthState(true, Some(Restored(data.userId, data.token)), false)
  {
    var s := Login(p, data).storage;
    assert Truthy(s, TokenKey) && Truthy(s, UserIdKey);
  }

  /** Logging in with an empty token leaves the session authenticated now, but a reload comes back
      signed out: the mount effect treats the empty entry as missing. */
  lemma EmptyTokenLostOnReload(p: Provider, userId: string)
    ensures Login(p, LoginData(userId, "")).state.isAuthenticated
    ensures !Mount(Login(p, LoginData(userId, "")).storage).state.isAuthenticated
  {
    assert !Truthy(Login(p, LoginData(userId, "")).storage, TokenKey);
  }

  /** After logging out, a fresh mount is signed out; and logging out twice is logging out once. */
  lemma LogoutThenMount(p: Provider)
    ensures Mount(Logout(p).storage).state == AuthState(false, None, false)
    ensures Logout(Logout(p)) == Logout(p)
  {
    assert !Truthy(Logout(p).storage, TokenKey);
    assert Logout(p).storage - {TokenKey, UserIdKey} == Logout(p).storage;
  }

  /** The analytics events tracked after a login carry the logged-in user's id, since `trackEvent`
      reads the same `userId` entry. */
  lemma LoginTagsEvents(p: Provider, data: LoginData, b: Store.Browser, env: Store.Env, name: string, properties: Store.Props)
    requires b.local == Login(p, data).storage
    ensures Store.Last(Store.TrackEvent(b, env, name, properties)).properties["userId"] == Store.Str(data.userId)
  {
    Store.TrackedRecord(b, env, name, properties);
  }

  /** After a logout, tracked events carry a null user id. */
  lemma LogoutUntagsEvents(p: Provider, b: Store.Browser, env: Store.Env, name: string, properties: Store.Props)
    requires b.local == Logout(p).storage
    ensures Store.Last(Store.TrackEvent(b, env, name, properties)).properties["userId"] == Store.Null
  {
    Store.TrackedRecord(b, env, name, properties);
  }
}
