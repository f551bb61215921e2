/** The password-login helpers of `utils/auth.py`, over the store of `Mongo`.

    Password checking is bcrypt's, which the model does not compute: `verify`
    is an uninterpreted oracle standing for `verify_password` (which already
    turns a raising bcrypt call into false), and the hash stored at
    registration is the value `hash_password` returned. */
module Auth {
  import opened Wrappers
  import opened Mongo

  /** `verify_password(password, hashed)`. */
  type Verifier = (string, string) -> bool

  /** The pair `(token, error)` that `login_user` returns. */
  datatype LoginResult = LoginResult(token: Option<string>, error: Option<string>)

  const UserNotFound: string := "User not found"
  const InvalidPassword: string := "Invalid password"

  /** `login_user`: look the user up, check the password, then open a session
      of the default 24 hours. A failed lookup call is "User not found"
      (`get_user_by_email` swallows it); a failed connection or a failed
      `create_session` raises. */
  function LoginStep(db: DB, email: string, password: string, verify: Verifier, now: int, uuid: string,
                     lookupNet: Net, sessionNet: Net): (out: (Result<LoginResult, StoreError>, DB))
    ensures out.1.users == db.users && out.1.feedback == db.feedback
    ensures out.0.Success? ==> (out.0.value.token.Some? <==> out.0.value.error.None?)
  {
    var (found, d) := GetUserStep(db, email, lookupNet);
    match found
    case Failure(e) => (Failure(e), d)
    case Success(None) => (Success(LoginResult(None, Some(UserNotFound))), d)
    case Success(Some(user)) =>
      if !verify(password, user.password) then (Success(LoginResult(None, Some(InvalidPassword))), d)
      else
        var (t, d') := CreateSessionStep(d, email, DefaultSessionHours, now, uuid, sessionNet);
        match t
        case Failure(e) => (Failure(e), d')
        case Success(token) => (Success(LoginResult(Some(token), None)), d')
  }

  /** An unknown email gives `(None, "User not found")`, whatever the password
      and the verifier, and opens no session. */
  lemma UnknownUserIsRejected(db: DB, email: string, password: string, verify: Verifier, now: int, uuid: string, lookupNet: Net, sessionNet: Net)
    requires db.connected || lookupNet.reachable
    requires email !in db.users || !lookupNet.callOk
    ensures var out := LoginStep(db, email, password, verify, now, uuid, lookupNet, sessionNet);
      out.0 == Success(LoginResult(None, Some(UserNotFound))) && out.1.session == db.session
  {
  }

  /** A known email with a password that does not verify gives
      `(None, "Invalid password")` and opens no session. */
  lemma WrongPasswordIsRejected(db: DB, email: string, password: string, verify: Verifier, now: int, uuid: string, lookupNet: Net, sessionNet: Net)
    requires (db.connected || lookupNet.reachable) && lookupNet.callOk
    requires email in db.users && !verify(password, db.users[email].password)
    ensures var out := LoginStep(db, email, password, verify, now, uuid, lookupNet, sessionNet);
      out.0 == Success(LoginResult(None, Some(InvalidPassword))) && out.1.session == db.session
  {
  }

  /** A session is created only on success: whenever `login_user` changes
      the session collection it returned `(token, None)`, and the one record
      it added is a 24-hour session for `email` under that token. The user
      collection never changes. */
  lemma SessionOnlyOnSuccess(db: DB, email: string, password: string, verify: Verifier, now: int, uuid: string, lookupNet: Net, sessionNet: Net)
    ensures var out := LoginStep(db, email, password, verify, now, uuid, lookupNet, sessionNet);
      && out.1.users == db.users && out.1.feedback == db.feedback
      && (out.1.session != db.session ==>
            out.0 == Success(LoginResult(Some(uuid), None)) &&
            out.1.session == db.session + [NewSession(uuid, email, DefaultSessionHours, now)])
      && (out.0.Success? && out.0.value.token.Some? ==> out.1.session != db.session && out.0.value.error.None?)
  {
    var (found, d) := GetUserStep(db, email, lookupNet);
    if found.Success? && found.value.Some? && verify(password, found.value.value.password) {
      var (t, d') := CreateSessionStep(d, email, DefaultSessionHours, now, uuid, sessionNet);
      if t.Success? {
        assert |d'.session| == |db.session| + 1;
      }
    }
  }

  /** Registration followed by login: once `register_user` stored the hash
      of `password` (and bcrypt verifies a password against its own hash),
      `login_user` with that password opens a session that validates to the
      user's email. */
  lemma RegisterThenLogin(db: DB, email: string, name: string, password: string, hashed: string, isAdmin: bool,
                          verify: Verifier, now: int, uuid: string, n1: Net, n2: Net, n3: Net, n4: Net)
    requires DistinctTokens(db.session) && Fresh(db.session, uuid)
    requires verify(password, hashed)
    requires CreateUserStep(db, email, name, hashed, isAdmin, now, n1).0.Success?
    requires n2.callOk && n3.callOk && n4.callOk
    ensures var registered := CreateUserStep(db, email, name, hashed, isAdmin, now, n1).1;
      var login := LoginStep(registered, email, password, verify, now, uuid, n2, n3);
      && login.0 == Success(LoginResult(Some(uuid), None))
      && ValidateStep(login.1, uuid, now, n4).0 == Success(Some(email))
  {
    var registered := CreateUserStep(db, email, name, hashed, isAdmin, now, n1).1;
    assert registered.users[email].password == hashed;
    var d := GetUserStep(registered, email, n2).1;
    CreateSessionThenValidateSession(d, email, DefaultSessionHours, now, uuid, n3, n4);
  }

  /** `register_user`: exactly `create_user` with the same arguments. */
  method RegisterUser(store: Store, email: string, name: string, hashed: string, isAdmin: bool := false, now: int, net: Net)
    returns (r: Result<PublicUser, StoreError>)
    requires store.Valid()
    modifies store
    ensures store.Valid()
    ensures (r, store.State()) == CreateUserStep(old(store.State()), email, name, hashed, isAdmin, now, net)
  {
    r := store.CreateUser(email, name, hashed, isAdmin, now, net);
  }

  /** `login_user` on the store. */
  method LoginUser(store: Store, email: string, password: string, verify: Verifier, now: int, uuid: string,
                   lookupNet: Net, sessionNet: Net) returns (r: Result<LoginResult, StoreError>)
    requires store.Valid() && Fresh(store.session, uuid)
    modifies store
    ensures store.Valid()
    ensures (r, store.State()) == LoginStep(old(store.State()), email, password, verify, now, uuid, lookupNet, sessionNet)
  {
    var user := store.GetUserByEmail(email, lookupNet);
    if user.Failure? {
      return Failure(user.error);
    }
    if user.value.None? {
      return Success(LoginResult(None, Some(UserNotFound)));
    }
    if !verify(password, user.value.value.password) {
      return Success(LoginResult(None, Some(InvalidPassword)));
    }
    var token := store.CreateSession(email, DefaultSessionHours, now, uuid, sessionNet);
    if token.Failure? {
      return Failure(token.error);
    }
    return Success(LoginResult(Some(token.value), None));
  }

  /** `logout_token`: exactly `delete_session`. */
  method LogoutToken(store: Store, token: string, net: Net) returns (r: Outcome<StoreError>)
    requires store.Valid()
    modifies store
    ensures store.Valid()
    ensures (r, store.State()) == DeleteSessionStep(old(store.State()), token, net)
  {
    r := store.DeleteSession(token, net);
  }

  /** `current_user_from_token`: exactly `validate_session`. */
  method CurrentUserFromToken(store: Store, token: string, now: int, net: Net) returns (r: Result<Option<string>, StoreError>)
    requires store.Valid()
    modifies store
    ensures store.Valid()
    ensures (r, store.State()) == ValidateStep(old(store.State()), token, now, net)
  {
    r := store.ValidateSession(token, now, net);
  }
}
