/** The HTTP handlers of `api.py`, over the store of `Mongo`.

    A handler's outcome is a `Response`: the body or the error the client
    sees, and what happens to the `session_token` cookie. An exception that
    no handler catches reaches the framework, which answers with a server
    error and drops the cookie set on the injected response object; the
    model records such an outcome as `Unhandled`. The RAG pipeline is seen
    only through its outcome, and Google's token-info endpoint through its
    reply. */
module Api {
  import opened Wrappers
  import opened Mongo
  import opened Text

  /** What made an exception escape a handler. */
  datatype Cause = StoreFailure(e: StoreError) | TokenInfoUnreachable

  datatype ApiError = HttpError(status: int, detail: string) | Unhandled(cause: Cause)

  datatype CookieAction = NoCookie | SetCookie(value: string) | DeleteCookie

  datatype Response<+T> = Response(body: Result<T, ApiError>, cookie: CookieAction)

  /** The token-info endpoint's reply: its status and the fields of its JSON. */
  datatype TokenInfo = TokenInfo(status: int, aud: Option<string>, email: string, name: Option<string>)

  /** The `{"email": ..., "name": ...}` mapping a verified token yields, and `login` returns. */
  datatype Identity = Identity(email: string, name: Option<string>)

  const SessionCookie: string := "session_token"
  const LoginSessionHours: int := 24

  /** `verify_google_id_token`; `reply` is None when the HTTP request itself raises. */
  function VerifyGoogleIdToken(reply: Option<TokenInfo>, clientId: Option<string>): (r: Result<Identity, ApiError>)
    ensures r.Success? <==> reply.Some? && reply.value.status == 200 && (Truthy(clientId) ==> reply.value.aud == clientId)
    ensures r.Success? ==> r.value == Identity(reply.value.email, reply.value.name)
    ensures r.Failure? && reply.Some? ==> r.error.HttpError? && r.error.status == 401
    ensures reply.Some? && reply.value.status != 200 ==> r == Failure(HttpError(401, "Invalid Google token"))
    ensures reply.Some? && reply.value.status == 200 && Truthy(clientId) && reply.value.aud != clientId ==>
      r == Failure(HttpError(401, "Invalid token audience"))
  {
    match reply
    case None => Failure(Unhandled(TokenInfoUnreachable))
    case Some(info) =>
      if info.status != 200 then Failure(HttpError(401, "Invalid Google token"))
      else if Truthy(clientId) && info.aud != clientId then Failure(HttpError(401, "Invalid token audience"))
      else Success(Identity(info.email, info.name))
  }

  /** Without a configured `GOOGLE_CLIENT_ID` the audience is never looked at. */
  lemma AudienceCheckedOnlyWithClientId(info: TokenInfo, aud: Option<string>, clientId: Option<string>)
    requires !Truthy(clientId)
    ensures VerifyGoogleIdToken(Some(info), clientId) == VerifyGoogleIdToken(Some(info.(aud := aud)), clientId)
  {
  }

  /** `get_current_user`: the cookie must be present and validate to a
      non-empty email. */
  function Authenticate(db: DB, cookie: Option<string>, now: int, net: Net): (out: (Result<string, ApiError>, DB))
    ensures out.1.users == db.users && out.1.feedback == db.feedback
    ensures out.0.Success? ==> out.0.value != ""
  {
    if !Truthy(cookie) then (Failure(HttpError(401, "Missing session token")), db)
    else
      var (v, d) := ValidateStep(db, cookie.value, now, net);
      match v
      case Failure(e) => (Failure(Unhandled(StoreFailure(e))), d)
      case Success(email) =>
        if !Truthy(email) then (Failure(HttpError(401, "Invalid or expired session")), d)
        else (Success(email.value), d)
  }

  /** `get_current_user` succeeds exactly when the cookie is set and
      `validate_session` returns a non-empty email, which is then the user;
      the store is left as `validate_session` leaves it. */
  lemma AuthenticateCharacterised(db: DB, cookie: Option<string>, now: int, net: Net)
    requires Truthy(cookie)
    ensures var (r, d) := Authenticate(db, cookie, now, net);
      var (v, d') := ValidateStep(db, cookie.value, now, net);
      && d == d'
      && (r.Success? <==> v.Success? && Truthy(v.value))
      && (r.Success? ==> v.value == Some(r.value))
  {
  }

  /** `POST /api/login`. */
  function HandleLogin(db: DB, reply: Option<TokenInfo>, clientId: Option<string>, now: int, uuid: string,
                       sessionNet: Net, eventNet: Net): (out: (Response<Identity>, DB))
    ensures out.1.users == db.users && out.1.feedback == db.feedback
    ensures out.0.cookie != DeleteCookie && (out.0.cookie.SetCookie? <==> out.0.body.Success?)
  {
    match VerifyGoogleIdToken(reply, clientId)
    case Failure(e) => (Response(Failure(e), NoCookie), db)
    case Success(info) =>
      var (sess, d) := CreateSessionStep(db, info.email, LoginSessionHours, now, uuid, sessionNet);
      match sess
      case Failure(e) => (Response(Failure(Unhandled(StoreFailure(e))), NoCookie), d)
      case Success(token) =>
        var (ev, d') := AddEventStep(d, info.email, "login", Some(map["via" := Str("google")]), now, eventNet);
        match ev
        case Fail(e) => (Response(Failure(Unhandled(StoreFailure(e))), NoCookie), d')
        case Pass => (Response(Success(info), SetCookie(token)), d')
  }

  /** `POST /api/ask`; `rag` is the outcome `ask_with_rag(prompt)` would have. */
  function HandleAsk(db: DB, cookie: Option<string>, prompt: string, now: int, authNet: Net,
                     rag: Result<string, string>, feedbackNet: Net, eventNet: Net): (out: (Response<string>, DB))
    ensures out.1.users == db.users && out.0.cookie == NoCookie
    ensures out.0.body.Success? ==> rag.Success? && out.0.body.value == rag.value
  {
    var (user, d) := Authenticate(db, cookie, now, authNet);
    match user
    case Failure(e) => (Response(Failure(e), NoCookie), d)
    case Success(email) =>
      match rag
      case Failure(_) => (Response(Failure(HttpError(500, "RAG error")), NoCookie), d)
      case Success(text) =>
        var (f, d1) := AddFeedbackStep(d, email, prompt, text, Some(map["source" := Str("ui")]), now, feedbackNet);
        match f
        case Fail(_) => (Response(Success(text), NoCookie), d1)
        case Pass =>
          var (_, d2) := AddEventStep(d1, email, "query", Some(map["prompt_len" := Int(|prompt|)]), now, eventNet);
          (Response(Success(text), NoCookie), d2)
  }

  /** `POST /api/logout`. */
  function HandleLogout(db: DB, cookie: Option<string>, net: Net): (out: (Response<bool>, DB))
    ensures out.1.users == db.users && out.1.feedback == db.feedback
    ensures !Truthy(cookie) ==> out.1 == db
  {
    if Truthy(cookie) then
      var (_, d) := DeleteSessionStep(db, cookie.value, net);
      (Response(Success(true), DeleteCookie), d)
    else
      (Response(Success(true), DeleteCookie), db)
  }

  // ---------------------------------------------------------------------
  // Properties of the handlers

  /** Without a session cookie the answer is 401 "Missing session token",
      the store is not touched (not even connected), and the pipeline's
      outcome makes no difference: it is never run. */
  lemma AskWithoutCookie(db: DB, cookie: Option<string>, prompt: string, now: int, authNet: Net,
                         rag: Result<string, string>, rag': Result<string, string>, feedbackNet: Net, eventNet: Net)
    requires !Truthy(cookie)
    ensures var out := HandleAsk(db, cookie, prompt, now, authNet, rag, feedbackNet, eventNet);
      && out == (Response(Failure(HttpError(401, "Missing session token")), NoCookie), db)
      && out == HandleAsk(db, cookie, prompt, now, authNet, rag', feedbackNet, eventNet)
  {
  }

  /** A session that does not validate gives 401 "Invalid or expired
      session", nothing is written to the feedback collection, and the
      pipeline's outcome makes no difference. */
  lemma AskWithInvalidSession(db: DB, token: string, prompt: string, now: int, authNet: Net,
                              rag: Result<string, string>, rag': Result<string, string>, feedbackNet: Net, eventNet: Net)
    requires token != ""
    requires ValidateStep(db, token, now, authNet).0 == Success(None)
    ensures var out := HandleAsk(db, Some(token), prompt, now, authNet, rag, feedbackNet, eventNet);
      && out.0 == Response(Failure(HttpError(401, "Invalid or expired session")), NoCookie)
      && out.1.feedback == db.feedback
      && out == HandleAsk(db, Some(token), prompt, now, authNet, rag', feedbackNet, eventNet)
  {
  }

  /** Authentication failing in any way comes before any pipeline work:
      the answer does not depend on the pipeline, and the store is left
      exactly as authentication left it, so no feedback or event is written. */
  lemma AuthFailureStopsEverything(db: DB, cookie: Option<string>, prompt: string, now: int, authNet: Net,
                                   rag: Result<string, string>, rag': Result<string, string>, feedbackNet: Net, eventNet: Net)
    requires Authenticate(db, cookie, now, authNet).0.Failure?
    ensures var out := HandleAsk(db, cookie, prompt, now, authNet, rag, feedbackNet, eventNet);
      && out == HandleAsk(db, cookie, prompt, now, authNet, rag', feedbackNet, eventNet)
      && out.0.body.Failure?
      && out.1 == Authenticate(db, cookie, now, authNet).1
      && out.1.feedback == db.feedback
  {
  }

  /** A pipeline error gives 500 "RAG error" and nothing is persisted:
      the store is left as authentication left it. */
  lemma RagErrorPersistsNothing(db: DB, cookie: Option<string>, prompt: string, now: int, authNet: Net,
                                err: string, feedbackNet: Net, eventNet: Net)
    requires Authenticate(db, cookie, now, authNet).0.Success?
    ensures var out := HandleAsk(db, cookie, prompt, now, authNet, Failure(err), feedbackNet, eventNet);
      && out.0 == Response(Failure(HttpError(500, "RAG error")), NoCookie)
      && out.1 == Authenticate(db, cookie, now, authNet).1
  {
  }

  /** Once the pipeline answered, the answer reaches the client whatever
      happens to the feedback and event writes; the feedback record holds the
      prompt and the answer, and with it comes a "query" event. When the
      feedback write fails, the event is not attempted. */
  lemma PersistenceFailuresAreSwallowed(db: DB, cookie: Option<string>, prompt: string, now: int, authNet: Net,
                                        text: string, feedbackNet: Net, eventNet: Net)
    requires Authenticate(db, cookie, now, authNet).0.Success?
    ensures var (user, d) := Authenticate(db, cookie, now, authNet);
      var out := HandleAsk(db, cookie, prompt, now, authNet, Success(text), feedbackNet, eventNet);
      && out.0 == Response(Success(text), NoCookie)
      && (feedbackNet.callOk ==>
            out.1.feedback == d.feedback + [FeedbackDoc(user.value, prompt, text, map["source" := Str("ui")], now)])
      && (!feedbackNet.callOk ==> out.1.feedback == d.feedback && out.1.session == d.session)
      && (feedbackNet.callOk && eventNet.callOk ==>
            out.1.session == d.session + [EventRecord(user.value, "query", map["prompt_len" := Int(|prompt|)], now)])
  {
  }

  /** `logout` always answers `{"ok": True}` and clears the cookie, whether
      the cookie is absent, the deletion succeeds, or it raises. */
  lemma LogoutAlwaysSucceeds(db: DB, cookie: Option<string>, net: Net)
    ensures HandleLogout(db, cookie, net).0 == Response(Success(true), DeleteCookie)
  {
  }

  /** Logging out twice with the same cookie succeeds both times, and
      afterwards the token no longer validates. */
  lemma LogoutTwice(db: DB, token: string, net: Net, net': Net, net'': Net, now: int)
    requires token != "" && DistinctTokens(db.session)
    requires (db.connected || net.reachable) && net.callOk
    ensures var first := HandleLogout(db, Some(token), net);
      var second := HandleLogout(first.1, Some(token), net');
      && first.0.body == Success(true) && second.0.body == Success(true)
      && ValidateStep(second.1, token, now, net'').0 == Success(None)
  {
    DeleteIsIdempotent(db.session, token);
  }

  /** A successful login creates one 24-hour session for the verified email,
      under the token put in the cookie, and records a "login" event for it. */
  lemma LoginCreatesSessionAndEvent(db: DB, reply: Option<TokenInfo>, clientId: Option<string>, now: int, uuid: string,
                                    sessionNet: Net, eventNet: Net)
    requires HandleLogin(db, reply, clientId, now, uuid, sessionNet, eventNet).0.body.Success?
    ensures var out := HandleLogin(db, reply, clientId, now, uuid, sessionNet, eventNet);
      var email := out.0.body.value.email;
      && reply.Some? && email == reply.value.email
      && out.0.cookie == SetCookie(uuid)
      && out.1.session == db.session + [NewSession(uuid, email, 24, now), EventRecord(email, "login", map["via" := Str("google")], now)]
      && out.1.users == db.users && out.1.feedback == db.feedback
  {
  }

  /** A rejected ID token changes nothing and sets no cookie. */
  lemma RejectedTokenChangesNothing(db: DB, reply: Option<TokenInfo>, clientId: Option<string>, now: int, uuid: string,
                                    sessionNet: Net, eventNet: Net)
    requires VerifyGoogleIdToken(reply, clientId).Failure?
    ensures HandleLogin(db, reply, clientId, now, uuid, sessionNet, eventNet) ==
      (Response(Failure(VerifyGoogleIdToken(reply, clientId).error), NoCookie), db)
  {
  }

  // ---------------------------------------------------------------------
  // The handlers on the store

  method GetCurrentUser(store: Store, cookie: Option<string>, now: int, net: Net) returns (r: Result<string, ApiError>)
    requires store.Valid()
    modifies store
    ensures store.Valid()
    ensures (r, store.State()) == Authenticate(old(store.State()), cookie, now, net)
  {
    if !Truthy(cookie) {
      return Failure(HttpError(401, "Missing session token"));
    }
    var email := store.ValidateSession(cookie.value, now, net);
    if email.Failure? {
      return Failure(Unhandled(StoreFailure(email.error)));
    }
    if !Truthy(email.value) {
      return Failure(HttpError(401, "Invalid or expired session"));
    }
    return Success(email.value.value);
  }

  method Login(store: Store, reply: Option<TokenInfo>, clientId: Option<string>, now: int, uuid: string,
               sessionNet: Net, eventNet: Net) returns (r: Response<Identity>)
    requires store.Valid() && Fresh(store.session, uuid)
    modifies store
    ensures store.Valid()
    ensures (r, store.State()) == HandleLogin(old(store.State()), reply, clientId, now, uuid, sessionNet, eventNet)
  {
    var info := VerifyGoogleIdToken(reply, clientId);
    if info.Failure? {
      return Response(Failure(info.error), NoCookie);
    }
    var email := info.value.email;
    var sess := store.CreateSession(email, LoginSessionHours, now, uuid, sessionNet);
    if sess.Failure? {
      return Response(Failure(Unhandled(StoreFailure(sess.error))), NoCookie);
    }
    var cookie := SetCookie(sess.value);
    var ev := store.AddEvent(email, "login", Some(map["via" := Str("google")]), now, eventNet);
    if ev.Fail? {
      return Response(Failure(Unhandled(StoreFailure(ev.error))), NoCookie);
    }
    return Response(Success(info.value), cookie);
  }

  method AskItem(store: Store, cookie: Option<string>, prompt: string, now: int, authNet: Net,
                 rag: Result<string, string>, feedbackNet: Net, eventNet: Net) returns (r: Response<string>)
    requires store.Valid()
    modifies store
    ensures store.Valid()
    ensures (r, store.State()) == HandleAsk(old(store.State()), cookie, prompt, now, authNet, rag, feedbackNet, eventNet)
  {
    var user := GetCurrentUser(store, cookie, now, authNet);
    if user.Failure? {
      return Response(Failure(user.error), NoCookie);
    }
    if rag.Failure? {
      return Response(Failure(HttpError(500, "RAG error")), NoCookie);
    }
    var text := rag.value;
    var f := store.AddFeedback(user.value, prompt, text, Some(map["source" := Str("ui")]), now, feedbackNet);
    if f.Pass? {
      var _ := store.AddEvent(user.value, "query", Some(map["prompt_len" := Int(|prompt|)]), now, eventNet);
    }
    return Response(Success(text), NoCookie);
  }

  method Logout(store: Store, cookie: Option<string>, net: Net) returns (r: Response<bool>)
    requires store.Valid()
    modifies store
    ensures store.Valid()
    ensures (r, store.State()) == HandleLogout(old(store.State()), cookie, net)
  {
    if Truthy(cookie) {
      var _ := store.DeleteSession(cookie.value, net);
    }
    return Response(Success(true), DeleteCookie);
  }
}
