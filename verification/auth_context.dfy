/**
 * The session state machine of `context/AuthContext.tsx`.
 *
 * The provider's React state `(token, user, isLoading)` is a `Session`; the
 * browser's local storage is a map from keys to strings. JSON
 * serialisation of a user is a pair of functions passed in as a `Codec`:
 * `parse` returns None exactly where `JSON.parse` would throw.
 */
module AuthContext {
  import opened Wrappers
  import opened Types
  import MockApi

  type Storage = map<string, string>

  const TokenKey: string := "authToken"
  const UserKey: string := "authUser"

  datatype Codec = Codec(serialise: User -> string, parse: string -> Option<User>)

  /**
   * What the model assumes of JSON: parsing a serialised user gives it
   * back, and the empty string does not parse.
   */
  ghost predicate WfCodec(c: Codec)
  {
    && c.parse("") == None
    && forall u :: c.parse(c.serialise(u)) == Some(u)
  }

  datatype Session = Session(token: Option<string>, user: Option<User>, isLoading: bool)

  /** The provider's state when it mounts, before the session is restored. */
  const Initial: Session := Session(None, None, true)

  /** The provider's state together with the storage it persists to. */
  datatype Auth = Auth(session: Session, storage: Storage)

  /** JavaScript truthiness of a stored string: present and non-empty. */
  predicate Truthy(v: Option<string>)
  {
    v.Some? && v.value != ""
  }

  function Get(st: Storage, key: string): Option<string>
  {
    if key in st then Some(st[key]) else None
  }

  /** `isAuthenticated: !!token`: a token that is present and non-empty. */
  function IsAuthenticated(s: Session): (b: bool)
    ensures b ==> s.token.Some?
    ensures s.token.Some? && s.token.value != "" ==> b
    ensures s.token == Some("") ==> !b
  {
    Truthy(s.token)
  }

  /** A session whose in-memory token, when present, is non-empty. */
  predicate TokenNonEmpty(s: Session)
  {
    s.token.Some? ==> s.token.value != ""
  }

  /** When no empty token is ever installed, `isAuthenticated` is just "token is non-null". */
  lemma AuthenticatedIffToken(s: Session)
    requires TokenNonEmpty(s)
    ensures IsAuthenticated(s) <==> s.token.Some?
  {
  }

  /**
   * `loadSession` as written. When both stored values are truthy the token
   * is installed first; only then is the user parsed. If parsing throws,
   * the token already installed stays, the user keeps its previous value
   * and the whole storage is cleared. In every case loading ends.
   */
  function LoadSession(a: Auth, codec: Codec): (r: Auth)
    ensures !r.session.isLoading
    ensures !(Truthy(Get(a.storage, TokenKey)) && Truthy(Get(a.storage, UserKey))) ==>
      r == Auth(a.session.(isLoading := false), a.storage)
    ensures Truthy(Get(a.storage, TokenKey)) && Truthy(Get(a.storage, UserKey)) ==>
      r.session.token == Get(a.storage, TokenKey)
    ensures Truthy(Get(a.storage, TokenKey)) && Truthy(Get(a.storage, UserKey)) &&
            codec.parse(a.storage[UserKey]).Some? ==>
      r == Auth(Session(Get(a.storage, TokenKey), codec.parse(a.storage[UserKey]), false), a.storage)
    ensures Truthy(Get(a.storage, TokenKey)) && Truthy(Get(a.storage, UserKey)) &&
            codec.parse(a.storage[UserKey]).None? ==>
      r.storage == map[] && r.session.user == a.session.user
  {
    var storedToken := Get(a.storage, TokenKey);
    var storedUser := Get(a.storage, UserKey);
    if Truthy(storedToken) && Truthy(storedUser) then
      var withToken := a.session.(token := storedToken);
      match codec.parse(storedUser.value)
      case Some(u) => Auth(withToken.(user := Some(u), isLoading := false), a.storage)
      case None => Auth(withToken.(isLoading := false), map[])
    else
      Auth(a.session.(isLoading := false), a.storage)
  }

  /**
   * `loadSession` as its error handler intends it: a stored user that does
   * not parse leaves no session at all, and the storage is cleared.
   */
  function LoadSessionFixed(a: Auth, codec: Codec): (r: Auth)
    ensures !r.session.isLoading
    ensures Truthy(Get(a.storage, TokenKey)) && Truthy(Get(a.storage, UserKey)) &&
            codec.parse(a.storage[UserKey]).None? ==>
      r.storage == map[] && r.session.token.None? && r.session.user.None? && !IsAuthenticated(r.session)
  {
    var storedToken := Get(a.storage, TokenKey);
    var storedUser := Get(a.storage, UserKey);
    if Truthy(storedToken) && Truthy(storedUser) && codec.parse(storedUser.value).None? then
      Auth(Session(None, None, false), map[])
    else
      LoadSession(a, codec)
  }

  /** The corrected restore differs from the one as written only where parsing fails. */
  lemma FixedAgreesUnlessParseFails(a: Auth, codec: Codec)
    requires !(Truthy(Get(a.storage, TokenKey)) && Truthy(Get(a.storage, UserKey)) &&
               codec.parse(a.storage[UserKey]).None?)
    ensures LoadSessionFixed(a, codec) == LoadSession(a, codec)
  {
  }

  /**
   * `login`: asks the store; on failure nothing is written and the error
   * propagates; on success both keys are stored and the in-memory token and
   * user are set. The password plays no part.
   */
  function Login(a: Auth, store: MockApi.Store, codec: Codec, email: string, password: string)
    : (r: Result<Auth, MockApi.ApiError>)
    ensures r.Err? <==> MockApi.Login(store, email).Err?
    ensures r.Err? ==> r.error == MockApi.Login(store, email).error
    ensures r.Ok? ==>
      var c := MockApi.Login(store, email).value;
      && r.value.session == a.session.(token := Some(c.token), user := Some(c.user))
      && r.value.storage == a.storage[TokenKey := c.token][UserKey := codec.serialise(c.user)]
  {
    match MockApi.Login(store, email)
    case Err(e) => Err(e)
    case Ok(c) =>
      var storage := a.storage[TokenKey := c.token][UserKey := codec.serialise(c.user)];
      Ok(Auth(a.session.(token := Some(c.token), user := Some(c.user)), storage))
  }

  /** The password argument never changes the outcome of a login. */
  lemma LoginIgnoresPassword(a: Auth, store: MockApi.Store, codec: Codec, email: string, p1: string, p2: string)
    ensures Login(a, store, codec, email, p1) == Login(a, store, codec, email, p2)
  {
  }

  /**
   * `register`: forwards to the store and leaves the session and the
   * storage exactly as they were; registering never signs anyone in.
   */
  function Register(a: Auth, store: MockApi.Store, name: string, email: string, password: string, role: Role)
    : (r: Result<(Auth, MockApi.Store), MockApi.ApiError>)
    ensures r.Ok? ==> r.value.0 == a
    ensures r.Ok? <==> MockApi.Register(store, name, email, role).Ok?
    ensures r.Err? ==> r.error == MockApi.Register(store, name, email, role).error
    ensures r.Ok? ==> r.value.1 == MockApi.Register(store, name, email, role).value.0
  {
    match MockApi.Register(store, name, email, role)
    case Err(e) => Err(e)
    case Ok((store', _)) => Ok((a, store'))
  }

  /**
   * `logout`: removes the two keys (and no other), and forgets the token and
   * the user. Loading is unaffected.
   */
  function Logout(a: Auth): (r: Auth)
    ensures TokenKey !in r.storage && UserKey !in r.storage
    ensures forall k :: k != TokenKey && k != UserKey ==> Get(r.storage, k) == Get(a.storage, k)
    ensures r.session == Session(None, None, a.session.isLoading)
    ensures !IsAuthenticated(r.session)
  {
    Auth(Session(None, None, a.session.isLoading), a.storage - {TokenKey} - {UserKey})
  }

  /** Logging out twice is logging out once; with no session stored it changes nothing. */
  lemma LogoutIdempotent(a: Auth)
    ensures Logout(Logout(a)) == Logout(a)
    ensures (a.session.token.None? && a.session.user.None? &&
             TokenKey !in a.storage && UserKey !in a.storage) ==> Logout(a) == a
  {
    assert a.storage - {TokenKey} - {UserKey} - {TokenKey} - {UserKey} == a.storage - {TokenKey} - {UserKey};
    if TokenKey !in a.storage && UserKey !in a.storage {
      assert a.storage - {TokenKey} - {UserKey} == a.storage;
    }
  }

  /** Every transition keeps in-memory tokens non-empty. */
  lemma TransitionsKeepTokenNonEmpty(a: Auth, store: MockApi.Store, codec: Codec, email: string, password: string)
    requires TokenNonEmpty(a.session)
    ensures TokenNonEmpty(LoadSession(a, codec).session)
    ensures TokenNonEmpty(LoadSessionFixed(a, codec).session)
    ensures TokenNonEmpty(Logout(a).session)
    ensures Login(a, store, codec, email, password).Ok? ==>
      TokenNonEmpty(Login(a, store, codec, email, password).value.session)
  {
    var r := MockApi.Login(store, email);
    if r.Ok? {
      assert r.value.token[0] == MockApi.TokenPrefix[0];
    }
  }

  /**
   * Round trip: after a successful login, a restart (fresh provider state,
   * same storage) followed by a restore gives back the same token and user.
   */
  lemma LoginThenRestore(a: Auth, store: MockApi.Store, codec: Codec, email: string, password: string)
    requires WfCodec(codec)
    requires Login(a, store, codec, email, password).Ok?
    ensures var b := Login(a, store, codec, email, password).value;
      var restored := LoadSession(Auth(Initial, b.storage), codec);
      && restored.session == b.session.(isLoading := false)
      && restored.storage == b.storage
      && IsAuthenticated(restored.session)
      && LoadSessionFixed(Auth(Initial, b.storage), codec) == restored
  {
    var c := MockApi.Login(store, email).value;
    var b := Login(a, store, codec, email, password).value;
    assert c.token[0] == MockApi.TokenPrefix[0];
    assert codec.parse(codec.serialise(c.user)) == Some(c.user);
    assert Get(b.storage, TokenKey) == Some(c.token);
    assert Get(b.storage, UserKey) == Some(codec.serialise(c.user));
  }

  /** Round trip: after a logout, a restart followed by a restore has no session. */
  lemma LogoutThenRestore(a: Auth, codec: Codec)
    ensures var restored := LoadSession(Auth(Initial, Logout(a).storage), codec);
      && restored.session == Session(None, None, false)
      && !IsAuthenticated(restored.session)
      && LoadSessionFixed(Auth(Initial, Logout(a).storage), codec) == restored
  {
  }
}
