/** The user, session, feedback and event store of `utils/mongo.py`.

    The MongoDB database is modelled in memory: the `users` collection as a map
    keyed by email (`find_one({"email": ...})` is a key lookup), the `session`
    and `feedback` collections as sequences of documents in insertion order
    (`find_one` returns the first match, `delete_one` removes one document).
    The `session` collection holds two kinds of document, because `add_event`
    inserts its event documents there too; an event document has no "token"
    field, so no token lookup ever finds it.

    Time is an integer clock in seconds, passed in where the source reads
    `datetime.utcnow()`. Whether the server answers is an oracle: every
    operation takes a `Net` saying whether a first connection attempt
    succeeds and whether the collection call itself succeeds. */
module Mongo {
  import opened Wrappers

  /** A value in a free-form document mapping (feedback metadata, event details). */
  datatype Value = Str(s: string) | Int(i: int)

  type Dict = map<string, Value>

  const SecondsPerHour: int := 3600

  /** `create_session`'s default lifetime, in hours. */
  const DefaultSessionHours: int := 24

  /** A document of the `users` collection; `password` holds the bcrypt hash. */
  datatype User = User(email: string, name: string, password: string, isAdmin: bool, createdAt: int)

  /** The user document `create_user` returns: the stored one with "password" popped. */
  datatype PublicUser = PublicUser(email: string, name: string, isAdmin: bool, createdAt: int)

  function Public(u: User): PublicUser {
    PublicUser(u.email, u.name, u.isAdmin, u.createdAt)
  }

  /** A document of the `session` collection. `expires` is optional because
      `validate_session` accepts a record without one. */
  datatype SessionDoc =
    | SessionRecord(token: string, email: string, createdAt: int, expires: Option<int>)
    | EventRecord(username: string, eventType: string, details: Dict, timestamp: int)

  datatype FeedbackDoc = FeedbackDoc(email: string, query: string, response: string, metadata: Dict, createdAt: int)

  /** Why a store operation raised: the connection could not be made (in
      `_init_client`), the collection call failed, or `create_user`'s
      "User already exists" error. */
  datatype StoreError = Unreachable | OperationFailed | UserAlreadyExists

  /** The driver's behaviour on one operation: whether the server answers a
      first connection attempt, and whether the collection call succeeds. */
  datatype Net = Net(reachable: bool, callOk: bool)

  /** The whole store: the module globals `client`/`db` (set or not) and the collections. */
  datatype DB = DB(connected: bool, users: map<string, User>, session: seq<SessionDoc>, feedback: seq<FeedbackDoc>)

  // ---------------------------------------------------------------------
  // The session collection

  /** The document matches the query `{"token": token}`. */
  predicate HasToken(d: SessionDoc, token: string) {
    d.SessionRecord? && d.token == token
  }

  /** No document of `docs` carries `token`. */
  predicate Fresh(docs: seq<SessionDoc>, token: string) {
    forall j :: 0 <= j < |docs| ==> !HasToken(docs[j], token)
  }

  /** No two session records share a token (uuid4 tokens never collide). */
  predicate DistinctTokens(docs: seq<SessionDoc>) {
    forall i, j :: 0 <= i < j < |docs| && docs[i].SessionRecord? && docs[j].SessionRecord? ==>
      docs[i].token != docs[j].token
  }

  /** `find_one({"token": token})`: the position of the first matching document. */
  function Find(docs: seq<SessionDoc>, token: string): (r: Option<nat>)
    ensures r.Some? ==> r.value < |docs| && HasToken(docs[r.value], token) && Fresh(docs[..r.value], token)
    ensures r.None? <==> Fresh(docs, token)
  {
    if |docs| == 0 then None
    else if HasToken(docs[0], token) then Some(0)
    else
      match Find(docs[1..], token)
      case None => None
      case Some(i) =>
        assert docs[..i + 1] == [docs[0]] + docs[1..][..i];
        Some(i + 1)
  }

  function RemoveAt(docs: seq<SessionDoc>, i: nat): (r: seq<SessionDoc>)
    requires i < |docs|
    ensures |r| == |docs| - 1
  {
    docs[..i] + docs[i + 1..]
  }

  /** The record's expiry lies strictly before `now` (`rec["expires"] < utcnow()`). */
  predicate Expired(rec: SessionDoc, now: int)
    requires rec.SessionRecord?
  {
    rec.expires.Some? && rec.expires.value < now
  }

  /** The record `create_session` inserts. */
  function NewSession(token: string, email: string, hours: int, now: int): SessionDoc {
    SessionRecord(token, email, now, Some(now + hours * SecondsPerHour))
  }

  datatype Validation = Validation(email: Option<string>, docs: seq<SessionDoc>)

  /** What `validate_session` does to the collection once the store answers:
      an unknown token gives None; an expired record is deleted and gives None;
      otherwise the record's email. */
  function Validate(docs: seq<SessionDoc>, token: string, now: int): (v: Validation)
    ensures v.email.Some? ==> !Fresh(docs, token)
    ensures v.docs == docs || |v.docs| == |docs| - 1
  {
    match Find(docs, token)
    case None => Validation(None, docs)
    case Some(i) =>
      if Expired(docs[i], now) then Validation(None, RemoveAt(docs, i))
      else Validation(Some(docs[i].email), docs)
  }

  /** `delete_one({"token": token})`: the first matching document goes, if there is one. */
  function DeleteToken(docs: seq<SessionDoc>, token: string): (r: seq<SessionDoc>)
    ensures Fresh(docs, token) ==> r == docs
    ensures !Fresh(docs, token) ==> |r| == |docs| - 1
  {
    match Find(docs, token)
    case None => docs
    case Some(i) => RemoveAt(docs, i)
  }

  // ---------------------------------------------------------------------
  // The operations, as functions from the store before to the result and the store after

  /** `_init_client`: nothing to do once connected; otherwise connect if the server answers. */
  function Connect(db: DB, net: Net): (d: DB)
    ensures d.connected == (db.connected || net.reachable)
    ensures d.users == db.users && d.session == db.session && d.feedback == db.feedback
  {
    db.(connected := db.connected || net.reachable)
  }

  function CreateSessionStep(db: DB, email: string, hours: int, now: int, uuid: string, net: Net): (out: (Result<string, StoreError>, DB))
    ensures out.1.users == db.users && out.1.feedback == db.feedback && out.1.connected == Connect(db, net).connected
  {
    var d := Connect(db, net);
    if !d.connected then (Failure(Unreachable), d)
    else if !net.callOk then (Failure(OperationFailed), d)
    else (Success(uuid), d.(session := d.session + [NewSession(uuid, email, hours, now)]))
  }

  function ValidateStep(db: DB, token: string, now: int, net: Net): (out: (Result<Option<string>, StoreError>, DB))
    ensures out.1.users == db.users && out.1.feedback == db.feedback && out.1.connected == Connect(db, net).connected
    // only the connection attempt, which lies outside the try block, can raise
    ensures out.0.Failure? <==> !db.connected && !net.reachable
    // a failing collection call is swallowed: None, and nothing removed
    ensures (db.connected || net.reachable) && !net.callOk ==> out == (Success(None), Connect(db, net))
    ensures (db.connected || net.reachable) && net.callOk ==>
      out == (Success(Validate(db.session, token, now).email), Connect(db, net).(session := Validate(db.session, token, now).docs))
  {
    var d := Connect(db, net);
    if !d.connected then (Failure(Unreachable), d)
    else if !net.callOk then (Success(None), d)
    else
      var v := Validate(d.session, token, now);
      (Success(v.email), d.(session := v.docs))
  }

  function DeleteSessionStep(db: DB, token: string, net: Net): (out: (Outcome<StoreError>, DB))
    ensures out.1.users == db.users && out.1.feedback == db.feedback && out.1.connected == Connect(db, net).connected
    // an absent token is not an error: only an unreachable server or a failing call raises
    ensures out.0.Fail? <==> (!db.connected && !net.reachable) || !net.callOk
    ensures out.0.Pass? ==> out.1.session == DeleteToken(db.session, token)
    ensures out.0.Fail? ==> out.1.session == db.session
  {
    var d := Connect(db, net);
    if !d.connected then (Fail(Unreachable), d)
    else if !net.callOk then (Fail(OperationFailed), d)
    else (Pass, d.(session := DeleteToken(d.session, token)))
  }

  /** `create_user`, where `hashed` is what `hash_password(password)` returned. */
  function CreateUserStep(db: DB, email: string, name: string, hashed: string, isAdmin: bool := false, now: int, net: Net): (out: (Result<PublicUser, StoreError>, DB))
    ensures out.1.session == db.session && out.1.feedback == db.feedback && out.1.connected == Connect(db, net).connected
    ensures out.0.Success? ==> email !in db.users && out.1.users == db.users[email := User(email, name, hashed, isAdmin, now)]
    ensures out.0.Failure? ==> out.1.users == db.users
    // with a working store: the email is refused exactly when it is taken
    ensures (db.connected || net.reachable) && net.callOk ==> (out.0.Success? <==> email !in db.users)
    ensures (db.connected || net.reachable) && net.callOk && email in db.users ==> out.0 == Failure(UserAlreadyExists)
    ensures out.0.Success? ==> out.0.value == Public(out.1.users[email])
  {
    var d := Connect(db, net);
    if !d.connected then (Failure(Unreachable), d)
    else if !net.callOk then (Failure(OperationFailed), d)
    else if email in d.users then (Failure(UserAlreadyExists), d)
    else
      var user := User(email, name, hashed, isAdmin, now);
      (Success(Public(user)), d.(users := d.users[email := user]))
  }

  /** `get_user_by_email`: only the connection attempt raises; a failing
      lookup gives None, like a missing user. */
  function GetUserStep(db: DB, email: string, net: Net): (out: (Result<Option<User>, StoreError>, DB))
    ensures out.1 == Connect(db, net)
    ensures out.0.Failure? <==> !db.connected && !net.reachable
    ensures (db.connected || net.reachable) ==>
      out.0 == Success(if net.callOk && email in db.users then Some(db.users[email]) else None)
  {
    var d := Connect(db, net);
    if !d.connected then (Failure(Unreachable), d)
    else if !net.callOk then (Success(None), d)
    else if email in d.users then (Success(Some(d.users[email])), d)
    else (Success(None), d)
  }

  /** `add_feedback`; `metadata or {}` stores an empty mapping for None. */
  function AddFeedbackStep(db: DB, email: string, query: string, response: string, metadata: Option<Dict>, now: int, net: Net): (out: (Outcome<StoreError>, DB))
    ensures out.1.users == db.users && out.1.session == db.session && out.1.connected == Connect(db, net).connected
  {
    var d := Connect(db, net);
    if !d.connected then (Fail(Unreachable), d)
    else if !net.callOk then (Fail(OperationFailed), d)
    else (Pass, d.(feedback := d.feedback + [FeedbackDoc(email, query, response, metadata.GetOr(map[]), now)]))
  }

  /** `add_event`, which writes into the `session` collection. */
  function AddEventStep(db: DB, username: string, eventType: string, details: Option<Dict>, now: int, net: Net): (out: (Outcome<StoreError>, DB))
    ensures out.1.users == db.users && out.1.feedback == db.feedback && out.1.connected == Connect(db, net).connected
  {
    var d := Connect(db, net);
    if !d.connected then (Fail(Unreachable), d)
    else if !net.callOk then (Fail(OperationFailed), d)
    else (Pass, d.(session := d.session + [EventRecord(username, eventType, details.GetOr(map[]), now)]))
  }

  // ---------------------------------------------------------------------
  // Properties of the session collection

  /** Appending a document to a collection where `token` is fresh: the new
      document is found exactly when it carries the token. */
  lemma FindAppendFresh(docs: seq<SessionDoc>, d: SessionDoc, token: string)
    requires Fresh(docs, token)
    ensures Find(docs + [d], token) == if HasToken(d, token) then Some(|docs|) else None
  {
    var all := docs + [d];
    match Find(all, token)
    case None =>
      assert !HasToken(all[|docs|], token);
    case Some(i) =>
  }

  /** An event document never answers a token query: appending one leaves
      every token lookup as it was. */
  lemma {:induction false} EventNeverMatches(docs: seq<SessionDoc>, ev: SessionDoc, token: string)
    requires ev.EventRecord?
    ensures Find(docs + [ev], token) == Find(docs, token)
    decreases |docs|
  {
    if |docs| > 0 {
      assert (docs + [ev])[1..] == docs[1..] + [ev];
      EventNeverMatches(docs[1..], ev, token);
    }
  }

  lemma AppendFreshKeepsDistinct(docs: seq<SessionDoc>, d: SessionDoc)
    requires DistinctTokens(docs)
    requires d.SessionRecord? ==> Fresh(docs, d.token)
    ensures DistinctTokens(docs + [d])
  {
    var all := docs + [d];
    forall i, j | 0 <= i < j < |all| && all[i].SessionRecord? && all[j].SessionRecord?
      ensures all[i].token != all[j].token
    {
      if j == |docs| {
        assert !HasToken(docs[i], d.token);
      }
    }
  }

  lemma RemoveKeepsDistinct(docs: seq<SessionDoc>, k: nat)
    requires k < |docs| && DistinctTokens(docs)
    ensures DistinctTokens(RemoveAt(docs, k))
  {
    var r := RemoveAt(docs, k);
    forall i, j | 0 <= i < j < |r| && r[i].SessionRecord? && r[j].SessionRecord?
      ensures r[i].token != r[j].token
    {
      var i' := if i < k then i else i + 1;
      var j' := if j < k then j else j + 1;
      assert r[i] == docs[i'] && r[j] == docs[j'];
    }
  }

  /** Removing the one record that carries `token` leaves the token fresh. */
  lemma RemoveFoundLeavesFresh(docs: seq<SessionDoc>, k: nat, token: string)
    requires k < |docs| && DistinctTokens(docs) && HasToken(docs[k], token)
    ensures Fresh(RemoveAt(docs, k), token)
  {
    var r := RemoveAt(docs, k);
    forall j | 0 <= j < |r| ensures !HasToken(r[j], token) {
      var j' := if j < k then j else j + 1;
      assert r[j] == docs[j'];
    }
  }

  /** With distinct tokens, a record carrying `token` is the one `find_one` finds. */
  lemma FindUnique(docs: seq<SessionDoc>, k: nat, token: string)
    requires k < |docs| && DistinctTokens(docs) && HasToken(docs[k], token)
    ensures Find(docs, token) == Some(k)
  {
  }

  /** `validate_session` on the token `create_session` just returned gives the
      session's email, at any moment up to and including its expiry, and
      changes nothing. */
  lemma CreateThenValidate(docs: seq<SessionDoc>, token: string, email: string, hours: int, now: int, later: int)
    requires Fresh(docs, token)
    requires now <= later <= now + hours * SecondsPerHour
    ensures var docs' := docs + [NewSession(token, email, hours, now)];
      Validate(docs', token, later) == Validation(Some(email), docs')
  {
    FindAppendFresh(docs, NewSession(token, email, hours, now), token);
  }

  /** The same round trip through the whole store: once `create_session`
      succeeds, a `validate_session` issued at the same moment returns the
      email, whatever the connection oracle says, as long as the lookup call
      itself succeeds. */
  lemma CreateSessionThenValidateSession(db: DB, email: string, hours: int, now: int, uuid: string, net: Net, net': Net)
    requires Fresh(db.session, uuid) && hours >= 0 && net'.callOk
    requires CreateSessionStep(db, email, hours, now, uuid, net).0.Success?
    ensures var created := CreateSessionStep(db, email, hours, now, uuid, net);
      ValidateStep(created.1, created.0.value, now, net') == (Success(Some(email)), created.1)
  {
    CreateThenValidate(db.session, uuid, email, hours, now, now);
  }

  /** `validate_session`, completely: with distinct tokens it returns an email
      exactly when an unexpired record carries the token, and that record's
      email; it changes the collection exactly when an expired one does,
      and then removes that record and no other. */
  lemma ValidateCharacterised(docs: seq<SessionDoc>, token: string, now: int)
    requires DistinctTokens(docs)
    ensures forall e :: Validate(docs, token, now).email == Some(e) <==>
      exists k :: 0 <= k < |docs| && HasToken(docs[k], token) && !Expired(docs[k], now) && docs[k].email == e
    ensures forall k :: 0 <= k < |docs| && HasToken(docs[k], token) && Expired(docs[k], now) ==>
      Validate(docs, token, now) == Validation(None, RemoveAt(docs, k))
    ensures (forall k :: 0 <= k < |docs| && HasToken(docs[k], token) ==> !Expired(docs[k], now)) ==>
      Validate(docs, token, now).docs == docs
  {
    forall k | 0 <= k < |docs| && HasToken(docs[k], token) {
      FindUnique(docs, k, token);
    }
  }

  /** Lazy expiry: an expired record yields None and is gone afterwards, so a
      second lookup finds nothing. An expiry equal to `now` is still valid. */
  lemma ExpiredIsPurged(docs: seq<SessionDoc>, k: nat, token: string, now: int)
    requires k < |docs| && DistinctTokens(docs) && HasToken(docs[k], token) && Expired(docs[k], now)
    ensures Validate(docs, token, now).email == None
    ensures Fresh(Validate(docs, token, now).docs, token)
    ensures DistinctTokens(Validate(docs, token, now).docs)
  {
    FindUnique(docs, k, token);
    RemoveFoundLeavesFresh(docs, k, token);
    RemoveKeepsDistinct(docs, k);
  }

  /** `delete_session` is idempotent: afterwards the token is unknown, and a
      second deletion is a no-op. */
  lemma DeleteIsIdempotent(docs: seq<SessionDoc>, token: string)
    requires DistinctTokens(docs)
    ensures Fresh(DeleteToken(docs, token), token)
    ensures DeleteToken(DeleteToken(docs, token), token) == DeleteToken(docs, token)
    ensures DistinctTokens(DeleteToken(docs, token))
  {
    match Find(docs, token)
    case None =>
    case Some(k) =>
      RemoveFoundLeavesFresh(docs, k, token);
      RemoveKeepsDistinct(docs, k);
  }

  /** After `delete_session(token)` the token no longer validates. */
  lemma DeleteThenValidate(docs: seq<SessionDoc>, token: string, now: int)
    requires DistinctTokens(docs)
    ensures Validate(DeleteToken(docs, token), token, now) == Validation(None, DeleteToken(docs, token))
  {
    DeleteIsIdempotent(docs, token);
  }

  /** `delete_session` touches only the record of its token: every other
      token validates afterwards exactly as before. */
  lemma DeleteKeepsOtherSessions(docs: seq<SessionDoc>, token: string, other: string, now: int)
    requires DistinctTokens(docs) && other != token
    ensures Validate(DeleteToken(docs, token), other, now).email == Validate(docs, other, now).email
  {
    match Find(docs, token)
    case None =>
    case Some(k) =>
      var r := RemoveAt(docs, k);
      RemoveKeepsDistinct(docs, k);
      match Find(docs, other)
      case None =>
        assert Fresh(r, other) by {
          forall j | 0 <= j < |r| ensures !HasToken(r[j], other) {
            assert r[j] == docs[if j < k then j else j + 1];
          }
        }
      case Some(m) =>
        var m' := if m < k then m else m - 1;
        assert r[m'] == docs[m];
        FindUnique(r, m', other);
  }

  /** An event document in the `session` collection never becomes a valid session. */
  lemma EventNeverValidates(docs: seq<SessionDoc>, username: string, eventType: string, details: Dict, ts: int, token: string, now: int)
    ensures Validate(docs + [EventRecord(username, eventType, details, ts)], token, now).email == Validate(docs, token, now).email
  {
    var ev := EventRecord(username, eventType, details, ts);
    EventNeverMatches(docs, ev, token);
    match Find(docs, token)
    case None =>
    case Some(i) =>
      assert (docs + [ev])[i] == docs[i];
  }

  // ---------------------------------------------------------------------
  // The store itself

  /** The module globals `client`/`db` and the four collections, changed in
      place by each operation. */
  class Store {
    var connected: bool
    var users: map<string, User>
    var session: seq<SessionDoc>
    var feedback: seq<FeedbackDoc>

    function State(): DB
      reads this
    {
      DB(connected, users, session, feedback)
    }

    /** The store's invariant: session tokens are unique. */
    ghost predicate Valid()
      reads this
    {
      DistinctTokens(session)
    }

    /** The module as imported: no client yet, empty collections. */
    constructor ()
      ensures Valid() && State() == DB(false, map[], [], [])
    {
      connected := false;
      users := map[];
      session := [];
      feedback := [];
    }

    /** `_init_client`: idempotent once connected; a failed attempt leaves
        `client` and `db` unset and raises. */
    method InitClient(net: Net) returns (ok: bool)
      modifies this
      ensures State() == Connect(old(State()), net)
      ensures ok == connected
    {
      if connected {
        return true;
      }
      connected := net.reachable;
      ok := connected;
    }

    /** `create_session`, with `uuid` the fresh token `str(uuid4())` produced. */
    method CreateSession(email: string, hours: int, now: int, uuid: string, net: Net) returns (r: Result<string, StoreError>)
      requires Valid() && Fresh(session, uuid)
      modifies this
      ensures Valid()
      ensures (r, State()) == CreateSessionStep(old(State()), email, hours, now, uuid, net)
      ensures r.Success? ==> r.value == uuid && session == old(session) + [SessionRecord(uuid, email, now, Some(now + hours * SecondsPerHour))]
      ensures r.Failure? ==> session == old(session)
    {
      var up := InitClient(net);
      if !up {
        return Failure(Unreachable);
      }
      if !net.callOk {
        return Failure(OperationFailed);
      }
      var token := uuid;
      var rec := NewSession(token, email, hours, now);
      AppendFreshKeepsDistinct(session, rec);
      session := session + [rec];
      return Success(token);
    }

    method ValidateSession(token: string, now: int, net: Net) returns (r: Result<Option<string>, StoreError>)
      requires Valid()
      modifies this
      ensures Valid()
      ensures (r, State()) == ValidateStep(old(State()), token, now, net)
    {
      var up := InitClient(net);
      if !up {
        return Failure(Unreachable);
      }
      if !net.callOk {
        return Success(None);
      }
      var found := Find(session, token);
      if found.None? {
        return Success(None);
      }
      var rec := session[found.value];
      if rec.expires.Some? && rec.expires.value < now {
        RemoveKeepsDistinct(session, found.value);
        session := RemoveAt(session, found.value);
        return Success(None);
      }
      return Success(Some(rec.email));
    }

    method DeleteSession(token: string, net: Net) returns (r: Outcome<StoreError>)
      requires Valid()
      modifies this
      ensures Valid()
      ensures (r, State()) == DeleteSessionStep(old(State()), token, net)
    {
      var up := InitClient(net);
      if !up {
        return Fail(Unreachable);
      }
      if !net.callOk {
        return Fail(OperationFailed);
      }
      DeleteIsIdempotent(session, token);
      session := DeleteToken(session, token);
      return Pass;
    }

    /** `create_user`, with `hashed` the value `hash_password(password)` returned. */
    method CreateUser(email: string, name: string, hashed: string, isAdmin: bool := false, now: int, net: Net) returns (r: Result<PublicUser, StoreError>)
      requires Valid()
      modifies this
      ensures Valid()
      ensures (r, State()) == CreateUserStep(old(State()), email, name, hashed, isAdmin, now, net)
      ensures r.Success? ==> r.value == Public(users[email]) && users[email].password == hashed
    {
      var up := InitClient(net);
      if !up {
        return Failure(Unreachable);
      }
      if !net.callOk {
        return Failure(OperationFailed);
      }
      if email in users {
        return Failure(UserAlreadyExists);
      }
      var user := User(email, name, hashed, isAdmin, now);
      users := users[email := user];
      return Success(Public(user));
    }

    method GetUserByEmail(email: string, net: Net) returns (r: Result<Option<User>, StoreError>)
      modifies this
      ensures (r, State()) == GetUserStep(old(State()), email, net)
    {
      var up := InitClient(net);
      if !up {
        return Failure(Unreachable);
      }
      if !net.callOk || email !in users {
        return Success(None);
      }
      return Success(Some(users[email]));
    }

    method AddFeedback(email: string, query: string, response: string, metadata: Option<Dict>, now: int, net: Net) returns (r: Outcome<StoreError>)
      modifies this
      ensures (r, State()) == AddFeedbackStep(old(State()), email, query, response, metadata, now, net)
    {
      var up := InitClient(net);
      if !up {
        return Fail(Unreachable);
      }
      if !net.callOk {
        return Fail(OperationFailed);
      }
      var doc := FeedbackDoc(email, query, response, if metadata.Some? then metadata.value else map[], now);
      feedback := feedback + [doc];
      return Pass;
    }

    method AddEvent(username: string, eventType: string, details: Option<Dict>, now: int, net: Net) returns (r: Outcome<StoreError>)
      requires Valid()
      modifies this
      ensures Valid()
      ensures (r, State()) == AddEventStep(old(State()), username, eventType, details, now, net)
    {
      var up := InitClient(net);
      if !up {
        return Fail(Unreachable);
      }
      if !net.callOk {
        return Fail(OperationFailed);
      }
      var doc := EventRecord(username, eventType, if details.Some? then details.value else map[], now);
      AppendFreshKeepsDistinct(session, doc);
      session := session + [doc];
      return Pass;
    }
  }
}
