/** The gateway's signup and login routes (apps/gateway/src/routes/auth.ts): validate the body,
    consult and update the lockout tracker on login, call the document service, and issue a
    signed token. The document service and the token signer are parameters. */
module AuthRoutes {
  import opened Wrappers
  import RequestSchemas
  import RuntimeConfig
  import AuthLockout
  import CS = CounterStore
  import JsString
  import AuthControlsConfig

  type Credentials = RequestSchemas.Credentials
  type Issue = RequestSchemas.Issue

  /** The outcome of one call to the document service: its answer, an HTTP error with the
      message of its error body, or a failure that is not an HTTP answer at all. */
  datatype ServiceReply = Delivered(userId: string) | HttpFailure(statusCode: int, message: string) | TransportFailure

  type AccountService = Credentials -> ServiceReply

  /** Signs a token for a subject with a secret (HS256, issued now, valid for two hours). */
  type Signer = (string, string) -> string

  /** The errors mapError translates. */
  datatype RouteError = InvalidBody(issues: seq<Issue>) | Downstream(statusCode: int, message: string) | Unexpected

  datatype Reply =
    | TokenIssued(status: int, token: string, userId: string)
    | ErrorReply(status: int, message: string, issues: seq<Issue>)

  const InvalidRequestMessage := "Invalid request"
  const UpstreamFailureMessage := "Upstream service failure"
  const UnexpectedErrorMessage := "Unexpected error"
  const AccountLockedMessage := "Account temporarily locked. Try again later."
  const UnknownIp := "unknown"

  /** mapError: validation failures are 400 with their issues; a document-service 4xx passes
      through with its status and message; any other document-service failure is a bare 502, and
      anything else a bare 500. */
  function MapError(e: RouteError): (r: Reply)
    ensures r.ErrorReply?
    ensures r.status < 500 <==> e.InvalidBody? || (e.Downstream? && 400 <= e.statusCode < 500)
    ensures 400 <= r.status < 600
    ensures r.issues != [] ==> e.InvalidBody?
    ensures e.Downstream? && 400 <= e.statusCode < 500 ==> r.status == e.statusCode && r.message == e.message
    ensures !(e.Downstream? && 400 <= e.statusCode < 500) ==>
      r.message in {InvalidRequestMessage, UpstreamFailureMessage, UnexpectedErrorMessage}
  {
    match e
    case InvalidBody(issues) => ErrorReply(400, InvalidRequestMessage, issues)
    case Downstream(statusCode, message) =>
      if 400 <= statusCode < 500 then ErrorReply(statusCode, message, [])
      else ErrorReply(502, UpstreamFailureMessage, [])
    case Unexpected => ErrorReply(500, UnexpectedErrorMessage, [])
  }

  /** A document-service failure outside 4xx discloses nothing of the service's own message. */
  lemma ServerFailureDetailsHidden(code1: int, message1: string, code2: int, message2: string)
    requires !(400 <= code1 < 500) && !(400 <= code2 < 500)
    ensures MapError(Downstream(code1, message1)) == MapError(Downstream(code2, message2))
  {
  }

  /** getRequestIp: the client address when it is known and non-empty, "unknown" otherwise. */
  function RequestIp(ip: Option<string>): (r: string)
    ensures r != []
    ensures ip.Some? && ip.value != [] ==> r == ip.value
    ensures !(ip.Some? && ip.value != []) ==> r == UnknownIp
  {
    if ip.Some? && ip.value != [] then ip.value else UnknownIp
  }

  /** issueToken: a token for the user signed with getJwtSecret's secret; a secret refused at
      that point surfaces as an unexpected error. */
  function IssueToken(userId: string, env: RuntimeConfig.GatewayEnvironment, sign: Signer): (r: Result<string, RouteError>)
    ensures r.Success? <==> RuntimeConfig.JwtSecret(env).Success?
    ensures r.Success? ==> r.value == sign(userId, RuntimeConfig.JwtSecret(env).value)
    ensures r.Failure? ==> r.error == Unexpected
  {
    match RuntimeConfig.JwtSecret(env)
    case Success(secret) => Success(sign(userId, secret))
    case Failure(_) => Failure(Unexpected)
  }

  function ServiceError(reply: ServiceReply): (e: RouteError)
    requires !reply.Delivered?
    ensures reply.HttpFailure? ==> e == Downstream(reply.statusCode, reply.message)
    ensures reply.TransportFailure? ==> e == Unexpected
  {
    if reply.HttpFailure? then Downstream(reply.statusCode, reply.message) else Unexpected
  }

  /** The signup route: no lockout is involved; a created account gets 201 with its token. */
  function Signup(body: RequestSchemas.JsonBody, env: RuntimeConfig.GatewayEnvironment, signup: AccountService, sign: Signer): (r: Reply)
    ensures r.TokenIssued? <==>
      (RequestSchemas.ParseCredentials(body).Success?
       && signup(RequestSchemas.ParseCredentials(body).value).Delivered?
       && RuntimeConfig.JwtSecret(env).Success?)
    ensures r.TokenIssued? ==>
      var userId := signup(RequestSchemas.ParseCredentials(body).value).userId;
      r == TokenIssued(201, sign(userId, RuntimeConfig.JwtSecret(env).value), userId)
    ensures RequestSchemas.ParseCredentials(body).Failure? ==>
      r == ErrorReply(400, InvalidRequestMessage, RequestSchemas.ParseCredentials(body).error)
  {
    match RequestSchemas.ParseCredentials(body)
    case Failure(issues) => MapError(InvalidBody(issues))
    case Success(credentials) =>
      match signup(credentials)
      case Delivered(userId) =>
        (match IssueToken(userId, env, sign)
         case Success(token) => TokenIssued(201, token, userId)
         case Failure(e) => MapError(e))
      case _ => MapError(ServiceError(signup(credentials)))
  }

  // ---------------------------------------------------------------- login

  /** The lockout state the login route reads and writes: the in-memory map and the store. */
  datatype LoginState = LoginState(entries: map<string, AuthLockout.LockoutEntry>, store: AuthLockout.StoreView)

  datatype LoginOutcome = LoginOutcome(reply: Reply, state: LoginState, serviceCalled: bool)

  /** The login route. The lock check runs at `lockAt`; a rejected login is recorded at
      `failAt`. The lockout key is built from the username exactly as sent. */
  function LoginFlow(state: LoginState, body: RequestSchemas.JsonBody, ip: Option<string>, lockAt: int, failAt: int,
                     env: RuntimeConfig.GatewayEnvironment, login: AccountService, sign: Signer, cfg: AuthLockout.Settings)
    : (res: LoginOutcome)
    requires cfg.Valid()
    ensures res.reply.TokenIssued? ==> res.reply.status == 200 && res.serviceCalled
    ensures res.state.store == state.store || res.serviceCalled
    ensures RequestSchemas.ParseCredentials(body).Failure? ==> res.state == state && !res.serviceCalled
  {
    match RequestSchemas.ParseCredentials(body)
    case Failure(issues) => LoginOutcome(MapError(InvalidBody(issues)), state, false)
    case Success(credentials) =>
      var requestIp := RequestIp(ip);
      var check := AuthLockout.AccountLocked(state.entries, state.store, credentials.username, requestIp, lockAt, cfg);
      if check.0 then LoginOutcome(ErrorReply(429, AccountLockedMessage, []), LoginState(check.1, state.store), false)
      else
        match login(credentials)
        case Delivered(userId) =>
          var cleared := AuthLockout.AuthFailuresCleared(check.1, state.store, credentials.username, requestIp);
          var reply := match IssueToken(userId, env, sign)
            case Success(token) => TokenIssued(200, token, userId)
            case Failure(e) => MapError(e);
          LoginOutcome(reply, LoginState(cleared.0, cleared.1), true)
        case HttpFailure(401, message) =>
          var recorded := AuthLockout.AuthFailureRecorded(check.1, state.store, credentials.username, requestIp, failAt, cfg);
          var reply := if recorded.0 then ErrorReply(429, AccountLockedMessage, []) else MapError(Downstream(401, message));
          LoginOutcome(reply, LoginState(recorded.1, recorded.2), true)
        case _ => LoginOutcome(MapError(ServiceError(login(credentials))), LoginState(check.1, state.store), true)
  }

  /** The login route over the process's lockout tracker and the store (null when none is
      configured). */
  method Login(tracker: AuthLockout.LockoutTracker, store: CS.Store?, body: RequestSchemas.JsonBody, ip: Option<string>,
               lockAt: int, failAt: int, env: RuntimeConfig.GatewayEnvironment, login: AccountService, sign: Signer)
    returns (reply: Reply, serviceCalled: bool)
    requires tracker.Valid()
    modifies tracker, store
    ensures tracker.Valid()
    ensures LoginOutcome(reply, LoginState(tracker.entries, AuthLockout.View(store)), serviceCalled)
      == LoginFlow(LoginState(old(tracker.entries), old(AuthLockout.View(store))), body, ip, lockAt, failAt, env, login, sign, tracker.config)
  {
    var parsed := RequestSchemas.ParseCredentials(body);
    if parsed.Failure? {
      return MapError(InvalidBody(parsed.error)), false;
    }
    var credentials := parsed.value;
    var requestIp := RequestIp(ip);
    var locked := tracker.IsAccountLocked(store, credentials.username, requestIp, lockAt);
    if locked {
      return ErrorReply(429, AccountLockedMessage, []), false;
    }
    var answer := login(credentials);
    serviceCalled := true;
    if answer.Delivered? {
      tracker.ClearAuthFailures(store, credentials.username, requestIp);
      var token := IssueToken(answer.userId, env, sign);
      if token.Success? {
        reply := TokenIssued(200, token.value, answer.userId);
      } else {
        reply := MapError(token.error);
      }
      return;
    }
    if answer.HttpFailure? && answer.statusCode == 401 {
      var nowLocked := tracker.RecordAuthFailure(store, credentials.username, requestIp, failAt);
      if nowLocked {
        reply := ErrorReply(429, AccountLockedMessage, []);
        return;
      }
    }
    reply := MapError(ServiceError(answer));
  }

  // ---------------------------------------------------------------- login properties

  /** A locked account is refused with 429 before the document service is asked, and the store is
      left as it was. */
  lemma LockedAccountSkipsService(state: LoginState, body: RequestSchemas.JsonBody, ip: Option<string>, lockAt: int, failAt: int,
                                  env: RuntimeConfig.GatewayEnvironment, login: AccountService, sign: Signer, cfg: AuthLockout.Settings)
    requires cfg.Valid()
    requires RequestSchemas.ParseCredentials(body).Success?
    requires AuthLockout.AccountLocked(state.entries, state.store, RequestSchemas.ParseCredentials(body).value.username, RequestIp(ip), lockAt, cfg).0
    ensures var res := LoginFlow(state, body, ip, lockAt, failAt, env, login, sign, cfg);
      && res.reply == ErrorReply(429, AccountLockedMessage, [])
      && !res.serviceCalled
      && res.state.store == state.store
  {
  }

  /** Accepted credentials clear the account's failures (in memory and the store's failure
      counter, but not a store lock) before the token is issued. */
  lemma AcceptedLoginClearsFailures(state: LoginState, body: RequestSchemas.JsonBody, ip: Option<string>, lockAt: int, failAt: int,
                                    env: RuntimeConfig.GatewayEnvironment, login: AccountService, sign: Signer, cfg: AuthLockout.Settings)
    requires cfg.Valid()
    requires RequestSchemas.ParseCredentials(body).Success?
    requires var credentials := RequestSchemas.ParseCredentials(body).value;
      !AuthLockout.AccountLocked(state.entries, state.store, credentials.username, RequestIp(ip), lockAt, cfg).0
      && login(credentials).Delivered?
    ensures var credentials := RequestSchemas.ParseCredentials(body).value;
      var key := AuthLockout.CreateKey(credentials.username, RequestIp(ip));
      var res := LoginFlow(state, body, ip, lockAt, failAt, env, login, sign, cfg);
      && key !in res.state.entries
      && res.state.store == AuthLockout.ClearedInStore(state.store, key)
      && (res.reply.TokenIssued? <==> RuntimeConfig.JwtSecret(env).Success?)
      && (res.reply.TokenIssued? ==>
            (res.reply.userId == login(credentials).userId
             && res.reply.token == sign(login(credentials).userId, RuntimeConfig.JwtSecret(env).value)))
  {
  }

  /** A 401 from the document service records exactly one failure for the account; the reply is
      the lock message when that failure locked it, and the service's 401 otherwise. */
  lemma RejectedLoginRecordsOneFailure(state: LoginState, body: RequestSchemas.JsonBody, ip: Option<string>, lockAt: int, failAt: int,
                                       env: RuntimeConfig.GatewayEnvironment, login: AccountService, sign: Signer, cfg: AuthLockout.Settings)
    requires cfg.Valid()
    requires RequestSchemas.ParseCredentials(body).Success?
    requires var credentials := RequestSchemas.ParseCredentials(body).value;
      !AuthLockout.AccountLocked(state.entries, state.store, credentials.username, RequestIp(ip), lockAt, cfg).0
      && login(credentials).HttpFailure? && login(credentials).statusCode == 401
    ensures var credentials := RequestSchemas.ParseCredentials(body).value;
      var checked := AuthLockout.AccountLocked(state.entries, state.store, credentials.username, RequestIp(ip), lockAt, cfg).1;
      var recorded := AuthLockout.AuthFailureRecorded(checked, state.store, credentials.username, RequestIp(ip), failAt, cfg);
      var res := LoginFlow(state, body, ip, lockAt, failAt, env, login, sign, cfg);
      && res.state == LoginState(recorded.1, recorded.2)
      && (recorded.0 ==> res.reply == ErrorReply(429, AccountLockedMessage, []))
      && (!recorded.0 ==> res.reply == ErrorReply(401, login(credentials).message, []))
  {
  }

  /** Any other failure of the document service records nothing: the state is the one the lock
      check left. */
  lemma OtherFailuresRecordNothing(state: LoginState, body: RequestSchemas.JsonBody, ip: Option<string>, lockAt: int, failAt: int,
                                   env: RuntimeConfig.GatewayEnvironment, login: AccountService, sign: Signer, cfg: AuthLockout.Settings)
    requires cfg.Valid()
    requires RequestSchemas.ParseCredentials(body).Success?
    requires var credentials := RequestSchemas.ParseCredentials(body).value;
      !AuthLockout.AccountLocked(state.entries, state.store, credentials.username, RequestIp(ip), lockAt, cfg).0
      && !login(credentials).Delivered? && !(login(credentials).HttpFailure? && login(credentials).statusCode == 401)
    ensures var credentials := RequestSchemas.ParseCredentials(body).value;
      var checked := AuthLockout.AccountLocked(state.entries, state.store, credentials.username, RequestIp(ip), lockAt, cfg).1;
      var res := LoginFlow(state, body, ip, lockAt, failAt, env, login, sign, cfg);
      res.state == LoginState(checked, state.store) && res.reply == MapError(ServiceError(login(credentials)))
  {
  }

  // A scenario under the default settings, with no store: "bob" logs in from 10.0.0.5 and the
  // document service accepts only "right-password".

  const DefaultControls := AuthControlsConfig.AuthControls(20, 60000, 5, 900000, 900000)
  const BobAccounts: AccountService :=
    (c: Credentials) => if c.password == "right-password" then Delivered("bob-id") else HttpFailure(401, "Invalid credentials")
  const WrongBody := RequestSchemas.Object(map["username" := RequestSchemas.Text("bob"), "password" := RequestSchemas.Text("wrong-password")])
  const RightBody := RequestSchemas.Object(map["username" := RequestSchemas.Text("bob"), "password" := RequestSchemas.Text("right-password")])
  const BobIp: Option<string> := Some("10.0.0.5")

  /** The in-memory map holding `failures` for bob since time 0, locked until `lockedUntil`. */
  function BobFailures(failures: int, lockedUntil: int): LoginState {
    LoginState(map[AuthLockout.CreateKey("bob", "10.0.0.5") := AuthLockout.LockoutEntry(failures, 0, lockedUntil)], None)
  }

  lemma BobBodiesParse()
    ensures RequestSchemas.ParseCredentials(WrongBody) == Success(RequestSchemas.Credentials("bob", "wrong-password"))
    ensures RequestSchemas.ParseCredentials(RightBody) == Success(RequestSchemas.Credentials("bob", "right-password"))
  {
    JsString.Utf16LengthOfBmp("bob");
    JsString.Utf16LengthOfBmp("wrong-password");
    JsString.Utf16LengthOfBmp("right-password");
  }

  /** The first rejected login starts the count at time 0. */
  lemma BobFirstFailure(env: RuntimeConfig.GatewayEnvironment, sign: Signer)
    ensures var a := LoginFlow(LoginState(map[], None), WrongBody, BobIp, 0, 0, env, BobAccounts, sign, DefaultControls);
      a.state == BobFailures(1, 0) && a.reply == ErrorReply(401, "Invalid credentials", []) && a.serviceCalled
  {
    BobBodiesParse();
  }

  /** A further rejected login within the window counts, and the fifth locks for the duration. */
  lemma BobFurtherFailure(n: int, t: int, env: RuntimeConfig.GatewayEnvironment, sign: Signer)
    requires 1 <= n <= 4 && 0 <= t < 900000
    ensures var a := LoginFlow(BobFailures(n, 0), WrongBody, BobIp, t, t, env, BobAccounts, sign, DefaultControls);
      && a.state == BobFailures(n + 1, if n + 1 >= 5 then t + 900000 else 0)
      && a.reply == (if n + 1 >= 5 then ErrorReply(429, AccountLockedMessage, []) else ErrorReply(401, "Invalid credentials", []))
  {
    BobBodiesParse();
  }

  /** While locked, even the right password is refused, without asking the document service. */
  lemma BobLockedOut(t: int, env: RuntimeConfig.GatewayEnvironment, sign: Signer)
    requires 0 <= t < 1140000
    ensures var a := LoginFlow(BobFailures(5, 1140000), RightBody, BobIp, t, t, env, BobAccounts, sign, DefaultControls);
      a.reply == ErrorReply(429, AccountLockedMessage, []) && !a.serviceCalled && a.state == BobFailures(5, 1140000)
  {
    BobBodiesParse();
  }

  /** Once the lock has expired the right password signs a token. */
  lemma BobLockExpired(t: int, env: RuntimeConfig.GatewayEnvironment, sign: Signer)
    requires RuntimeConfig.JwtSecret(env).Success?
    requires t >= 1140000
    ensures var a := LoginFlow(BobFailures(5, 1140000), RightBody, BobIp, t, t, env, BobAccounts, sign, DefaultControls);
      a.reply == TokenIssued(200, sign("bob-id", RuntimeConfig.JwtSecret(env).value), "bob-id")
  {
    BobBodiesParse();
  }

  /** Five rejected logins, one a minute: the sixth attempt, with the right password, is refused as
      locked without asking the document service, and the same login sixteen minutes after the
      fifth failure succeeds. */
  lemma RepeatedFailuresLockThenExpire(env: RuntimeConfig.GatewayEnvironment, sign: Signer)
    requires RuntimeConfig.JwtSecret(env).Success?
    ensures var a1 := LoginFlow(LoginState(map[], None), WrongBody, BobIp, 0, 0, env, BobAccounts, sign, DefaultControls);
      var a2 := LoginFlow(a1.state, WrongBody, BobIp, 60000, 60000, env, BobAccounts, sign, DefaultControls);
      var a3 := LoginFlow(a2.state, WrongBody, BobIp, 120000, 120000, env, BobAccounts, sign, DefaultControls);
      var a4 := LoginFlow(a3.state, WrongBody, BobIp, 180000, 180000, env, BobAccounts, sign, DefaultControls);
      var a5 := LoginFlow(a4.state, WrongBody, BobIp, 240000, 240000, env, BobAccounts, sign, DefaultControls);
      var a6 := LoginFlow(a5.state, RightBody, BobIp, 300000, 300000, env, BobAccounts, sign, DefaultControls);
      var a7 := LoginFlow(a6.state, RightBody, BobIp, 1200000, 1200000, env, BobAccounts, sign, DefaultControls);
      && a4.reply == ErrorReply(401, "Invalid credentials", [])
      && a5.reply == ErrorReply(429, AccountLockedMessage, [])
      && a6.reply == ErrorReply(429, AccountLockedMessage, []) && !a6.serviceCalled
      && a7.reply == TokenIssued(200, sign("bob-id", RuntimeConfig.JwtSecret(env).value), "bob-id")
  {
    BobFirstFailure(env, sign);
    BobFurtherFailure(1, 60000, env, sign);
    BobFurtherFailure(2, 120000, env, sign);
    BobFurtherFailure(3, 180000, env, sign);
    BobFurtherFailure(4, 240000, env, sign);
    BobLockedOut(300000, env, sign);
    BobLockExpired(1200000, env, sign);
  }
}
