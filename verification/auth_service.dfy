/** The authentication session: the signed-in user, the signed-in flag and
    the browser storage that survives a reload, with the demo credential
    check standing in for a backend. */
module AuthService {
  import opened Wrappers
  import opened UserJson
  import Decimal

  /** A demo account: a user record plus its password. */
  datatype Account = Account(id: string, email: string, name: string, password: string)

  datatype LoginRequest = LoginRequest(email: string, password: string)

  datatype LoginResponse = LoginResponse(user: User, token: string)

  /** The service's state. `user` and `authenticated` are what
      `currentUserValue` and `isAuthenticatedValue` read; `storage` is the
      browser's key/value storage. */
  datatype Session = Session(user: Option<User>, authenticated: bool, storage: map<string, string>)

  const CurrentUserKey: string := "currentUser"
  const AuthTokenKey: string := "authToken"
  const InvalidCredentials: string := "Invalid email or password"

  /** The two built-in demo accounts. */
  const DemoAccounts: seq<Account> := [
    Account("1", "demo@example.com", "John Doe", "password123"),
    Account("2", "user@example.com", "Jane Smith", "password123")
  ]

  /** The flag is set exactly when a user is signed in. */
  predicate Valid(s: Session) {
    s.authenticated <==> s.user.Some?
  }

  // ---------------------------------------------------------------------
  // Storage.

  /** `getStoredUser`: no user when the key is missing or its text is falsy
      ("") or parses to null; the stored user when the text is a stored user
      record; a parse failure otherwise. */
  function GetStoredUser(storage: map<string, string>): (r: Result<Option<User>, string>)
    ensures CurrentUserKey !in storage ==> r == Ok(None)
    ensures CurrentUserKey in storage && storage[CurrentUserKey] in {"", "null"} ==> r == Ok(None)
    ensures CurrentUserKey in storage && storage[CurrentUserKey] !in {"", "null"} ==>
              (r.Ok? <==> Decode(storage[CurrentUserKey]).Some?)
              && (r.Ok? ==> r.value == Decode(storage[CurrentUserKey]))
    ensures r.Ok? && r.value.Some? ==> CurrentUserKey in storage && Decode(storage[CurrentUserKey]) == r.value
    ensures forall u :: CurrentUserKey in storage && storage[CurrentUserKey] == Encode(u) ==> r == Ok(Some(u))
  {
    if CurrentUserKey !in storage then Ok(None)
    else
      var text := storage[CurrentUserKey];
      StoredTextReadsBack(text);
      if text == "" || text == "null" then Ok(None)
      else match Decode(text)
        case Some(u) => Ok(Some(u))
        case None => Err("JSON.parse: unreadable stored user")
  }

  /** A text written for a user is neither falsy nor "null", and reads back
      as that user. */
  lemma StoredTextReadsBack(text: string)
    ensures forall u :: text == Encode(u) ==> text != "" && text != "null" && Decode(text) == Some(u)
  {
    forall u | text == Encode(u)
      ensures text != "" && text != "null" && Decode(text) == Some(u)
    {
      RoundTrip(u);
    }
  }

  /** `getToken`. */
  function GetToken(s: Session): (r: Option<string>)
    ensures r.Some? <==> AuthTokenKey in s.storage
    ensures r.Some? ==> r.value == s.storage[AuthTokenKey]
  {
    if AuthTokenKey in s.storage then Some(s.storage[AuthTokenKey]) else None
  }

  // ---------------------------------------------------------------------
  // Transitions.

  /** The constructor: restores the user from storage and sets the flag to
      whether one was found; a stored text that cannot be read fails the
      construction. */
  function Construct(storage: map<string, string>): (r: Result<Session, string>)
    ensures r.Ok? ==> r.value.storage == storage && Valid(r.value)
    ensures r.Ok? <==> GetStoredUser(storage).Ok?
    ensures r.Ok? ==> r.value.user == GetStoredUser(storage).value
  {
    match GetStoredUser(storage)
    case Ok(u) => Ok(Session(u, u.Some?, storage))
    case Err(e) => Err(e)
  }

  /** `dummyUsers.find(u => u.email === email)`: the first account with the
      exact email. */
  function FindByEmail(accounts: seq<Account>, email: string): (r: Option<nat>)
    ensures r.Some? ==> r.value < |accounts| && accounts[r.value].email == email
    ensures r.Some? ==> forall j :: 0 <= j < r.value ==> accounts[j].email != email
    ensures r.None? ==> forall j :: 0 <= j < |accounts| ==> accounts[j].email != email
  {
    if accounts == [] then None
    else if accounts[0].email == email then Some(0)
    else match FindByEmail(accounts[1..], email)
      case None => None
      case Some(i) => Some(i + 1)
  }

  /** The credential rule: the first account with the request's email exists
      and its password equals the request's. */
  function Authenticate(accounts: seq<Account>, req: LoginRequest): (r: Option<Account>)
    ensures r.Some? <==> exists i :: 0 <= i < |accounts| && accounts[i].email == req.email
                                   && accounts[i].password == req.password
                                   && forall j :: 0 <= j < i ==> accounts[j].email != req.email
    ensures r.Some? ==> r.value in accounts && r.value.email == req.email && r.value.password == req.password
    ensures r.Some? ==> FindByEmail(accounts, req.email).Some?
                        && r.value == accounts[FindByEmail(accounts, req.email).value]
  {
    match FindByEmail(accounts, req.email)
    case None => None
    case Some(i) =>
      if accounts[i].password == req.password then Some(accounts[i])
      else
        assert forall k :: (0 <= k < |accounts| && accounts[k].email == req.email
                 && (forall j :: 0 <= j < k ==> accounts[j].email != req.email)) ==> k == i;
        None
  }

  /** `generateDummyToken`, with the random base-36 digits as a parameter. */
  function DummyToken(randomDigits: string): (t: string)
    ensures |t| >= 12 && t[..12] == "dummy_token_" && t[12..] == randomDigits
  {
    "dummy_token_" + randomDigits
  }

  /** `handleAuthResponse`: stores the user record and the token, and signs
      the user in. */
  function HandleAuthResponse(s: Session, response: LoginResponse): (r: Session)
    ensures r.user == Some(response.user) && r.authenticated
    ensures r.storage.Keys == s.storage.Keys + {CurrentUserKey, AuthTokenKey}
    ensures r.storage[AuthTokenKey] == response.token
    ensures GetStoredUser(r.storage) == Ok(Some(response.user))
    ensures forall k :: k in s.storage && k != CurrentUserKey && k != AuthTokenKey ==> r.storage[k] == s.storage[k]
  {
    var storage := s.storage[CurrentUserKey := Encode(response.user)][AuthTokenKey := response.token];
    RoundTrip(response.user);
    assert storage[CurrentUserKey] == Encode(response.user);
    Session(Some(response.user), true, storage)
  }

  datatype LoginOutcome =
    | LoggedIn(response: LoginResponse, session: Session)
    | LoginFailed(message: string, session: Session)

  /** `login`, with the random digits of the two tokens as parameters: on a
      credential match the response carries the account's user with a fresh
      token plus a second fresh token, and the session is signed in; on a
      mismatch the error "Invalid email or password" and nothing changes. */
  function Login(s: Session, req: LoginRequest, userDigits: string, tokenDigits: string): (r: LoginOutcome)
    ensures r.LoggedIn? <==> Authenticate(DemoAccounts, req).Some?
    ensures r.LoginFailed? ==> r.message == InvalidCredentials && r.session == s
    ensures r.LoggedIn? ==>
              var a := Authenticate(DemoAccounts, req).value;
              && r.response.user == User(a.id, a.email, a.name, Some(DummyToken(userDigits)))
              && r.response.token == DummyToken(tokenDigits)
              && r.session.user == Some(r.response.user) && r.session.authenticated
              && GetToken(r.session) == Some(r.response.token)
  {
    match Authenticate(DemoAccounts, req)
    case None => LoginFailed(InvalidCredentials, s)
    case Some(a) =>
      var response := LoginResponse(User(a.id, a.email, a.name, Some(DummyToken(userDigits))), DummyToken(tokenDigits));
      LoggedIn(response, HandleAuthResponse(s, response))
  }

  /** `register`: a user with the given email and name and an id rendered
      from the clock reading `now`, plus a fresh token; the session is not
      touched and the password is not used. */
  function Register(s: Session, email: string, name: string, password: string, now: nat, tokenDigits: string)
    : (r: (LoginResponse, Session))
    ensures r.1 == s
    ensures r.0.user.email == email && r.0.user.name == name && r.0.user.token.None?
    ensures r.0.user.id == Decimal.NatToString(now)
    ensures r.0.token == DummyToken(tokenDigits)
  {
    (LoginResponse(User(Decimal.NatToString(now), email, name, None), DummyToken(tokenDigits)), s)
  }

  /** `logout`: removes both storage keys and signs out. */
  function Logout(s: Session): (r: Session)
    ensures r.user.None? && !r.authenticated
    ensures r.storage.Keys == s.storage.Keys - {CurrentUserKey, AuthTokenKey}
    ensures forall k :: k in r.storage ==> r.storage[k] == s.storage[k]
  {
    Session(None, false, s.storage - {CurrentUserKey, AuthTokenKey})
  }

  // ---------------------------------------------------------------------
  // The session invariant.

  /** The flag agrees with the user, and storage holds what a reload would
      restore as that same user. */
  predicate Consistent(s: Session) {
    Valid(s) && GetStoredUser(s.storage) == Ok(s.user)
  }

  /** Whatever a successful construction restores is consistent. */
  lemma ConstructConsistent(storage: map<string, string>)
    requires Construct(storage).Ok?
    ensures Consistent(Construct(storage).value)
  {
  }

  /** The user actions on the session. */
  datatype AuthEvent =
    | LoginAttempt(req: LoginRequest, userDigits: string, tokenDigits: string)
    | RegisterCall(email: string, name: string, password: string, now: nat, tokenDigits: string)
    | LogoutCall

  function SessionAfter(o: LoginOutcome): Session {
    match o
    case LoggedIn(_, s) => s
    case LoginFailed(_, s) => s
  }

  /** The session after one action. */
  function Step(s: Session, e: AuthEvent): Session {
    match e
    case LoginAttempt(req, ud, td) => SessionAfter(Login(s, req, ud, td))
    case RegisterCall(email, name, password, now, td) => Register(s, email, name, password, now, td).1
    case LogoutCall => Logout(s)
  }

  function Steps(s: Session, es: seq<AuthEvent>): Session
    decreases |es|
  {
    if es == [] then s else Steps(Step(s, es[0]), es[1..])
  }

  /** Every action keeps the session consistent. */
  lemma StepConsistent(s: Session, e: AuthEvent)
    requires Consistent(s)
    ensures Consistent(Step(s, e))
  {
    match e
    case LoginAttempt(_, _, _) =>
    case RegisterCall(_, _, _, _, _) =>
    case LogoutCall =>
      assert CurrentUserKey !in Logout(s).storage;
  }

  /** From a successful construction, the flag holds exactly when a user is
      present after any sequence of logins, registrations and logouts, and
      the storage would restore that same session on reload. */
  lemma {:induction false} StepsConsistent(s: Session, es: seq<AuthEvent>)
    requires Consistent(s)
    ensures Consistent(Steps(s, es))
    ensures Construct(Steps(s, es).storage) == Ok(Steps(s, es))
    decreases |es|
  {
    if es != [] {
      StepConsistent(s, es[0]);
      StepsConsistent(Step(s, es[0]), es[1..]);
    } else {
      ReloadRestores(s);
    }
  }

  /** Reconstructing the service from a consistent session's storage gives
      back the same session. */
  lemma ReloadRestores(s: Session)
    requires Consistent(s)
    ensures Construct(s.storage) == Ok(s)
  {
  }

  /** After logout there is no token and no user; logging out again changes
      nothing. */
  lemma LogoutIdempotent(s: Session)
    ensures GetToken(Logout(s)) == None
    ensures GetStoredUser(Logout(s).storage) == Ok(None)
    ensures Logout(Logout(s)) == Logout(s)
  {
    assert AuthTokenKey !in Logout(s).storage;
    assert CurrentUserKey !in Logout(s).storage;
  }

  /** With the demo accounts, a login succeeds exactly for one of the two
      demo emails with the password "password123". */
  lemma DemoLogins(req: LoginRequest)
    ensures Authenticate(DemoAccounts, req).Some? <==>
              (req.email == "demo@example.com" || req.email == "user@example.com") && req.password == "password123"
  {
    if (req.email == "demo@example.com" || req.email == "user@example.com") && req.password == "password123" {
      var i := if req.email == "demo@example.com" then 0 else 1;
      assert DemoAccounts[i].email == req.email && DemoAccounts[i].password == req.password;
      assert forall j :: 0 <= j < i ==> DemoAccounts[j].email != req.email;
    }
  }
}
