/** The gateway's bearer-token middleware (apps/gateway/src/middleware/requireAuth.ts): it reads
    the Authorization header, accepts development tokens `dev-token-<userId>` unless
    ALLOW_DEV_TOKENS is "false", and otherwise verifies a signed token with JWT_SECRET. */
module RequireAuth {
  import opened Wrappers
  import JsString
  import RuntimeConfig

  type GatewayEnvironment = RuntimeConfig.GatewayEnvironment

  const BearerPrefix := "Bearer "
  const DevTokenPrefix := "dev-token-"
  const UnauthorizedMessage := "Unauthorized"
  const InvalidTokenMessage := "Invalid token"

  /** What verifying a signed token with a secret gives: a bad signature, malformed token or
      expired token is `Rejected`; otherwise the `sub` claim when it is a string. */
  datatype Verification = Rejected | Verified(subject: Option<string>)

  /** The signature check itself (HS256 with the secret's bytes) is a parameter of the model. */
  type Verifier = (string, string) -> Verification

  datatype AuthOutcome = Authenticated(userId: string) | Refused(message: string)

  /** getBearerToken: the trimmed text after a case-sensitive "Bearer " prefix. */
  function BearerToken(header: Option<string>): (token: Option<string>)
    ensures token.Some? <==> header.Some? && JsString.StartsWith(header.value, BearerPrefix)
    ensures token.Some? ==> token.value == JsString.Trim(header.value[|BearerPrefix|..])
  {
    if header.None? || !JsString.StartsWith(header.value, BearerPrefix) then None
    else Some(JsString.Trim(header.value[|BearerPrefix|..]))
  }

  /** The middleware's own dev-token switch: on unless ALLOW_DEV_TOKENS is exactly "false".
      NODE_ENV plays no part here. */
  function DevTokensAccepted(env: GatewayEnvironment): (accepted: bool)
    ensures accepted <==> env.allowDevTokens != Some("false")
  {
    env.allowDevTokens != Some("false")
  }

  /** The middleware's own secret lookup: JWT_SECRET whenever it is non-empty. */
  function VerificationSecret(env: GatewayEnvironment): (secret: Option<string>)
    ensures secret.Some? <==> env.jwtSecret.Some? && env.jwtSecret.value != []
    ensures secret.Some? ==> secret == env.jwtSecret
  {
    if env.jwtSecret.Some? && env.jwtSecret.value != [] then env.jwtSecret else None
  }

  /** The decision of requireAuth for one request. */
  function Authenticate(header: Option<string>, env: GatewayEnvironment, verify: Verifier): (outcome: AuthOutcome)
    ensures outcome.Authenticated? ==> outcome.userId != []
    ensures outcome.Refused? ==> outcome.message == UnauthorizedMessage || outcome.message == InvalidTokenMessage
    ensures outcome == Refused(UnauthorizedMessage) <==> BearerToken(header) == None || BearerToken(header) == Some([])
  {
    match BearerToken(header)
    case None => Refused(UnauthorizedMessage)
    case Some(token) =>
      if token == [] then Refused(UnauthorizedMessage)
      else if DevTokensAccepted(env) && JsString.StartsWith(token, DevTokenPrefix) then
        var userId := token[|DevTokenPrefix|..];
        if userId == [] then Refused(InvalidTokenMessage) else Authenticated(userId)
      else
        match VerificationSecret(env)
        case None => Refused(InvalidTokenMessage)
        case Some(secret) =>
          match verify(token, secret)
          case Verified(Some(subject)) =>
            if subject != [] then Authenticated(subject) else Refused(InvalidTokenMessage)
          case _ => Refused(InvalidTokenMessage)
  }

  /** The part of one request and its response that requireAuth touches. */
  class AuthExchange {
    var authUserId: Option<string>
    var status: Option<int>
    var message: Option<string>
    var forwarded: bool

    constructor ()
      ensures authUserId == None && status == None && message == None && !forwarded
    {
      authUserId := None;
      status := None;
      message := None;
      forwarded := false;
    }
  }

  /** requireAuth: on success the user id is attached and the request goes on to the next
      handler; otherwise the response is a 401 with the refusal message and nothing else changes. */
  method RequireAuth(exchange: AuthExchange, header: Option<string>, env: GatewayEnvironment, verify: Verifier)
    modifies exchange
    ensures Authenticate(header, env, verify).Authenticated? ==>
      exchange.authUserId == Some(Authenticate(header, env, verify).userId) && exchange.forwarded
      && exchange.status == old(exchange.status) && exchange.message == old(exchange.message)
    ensures Authenticate(header, env, verify).Refused? ==>
      exchange.status == Some(401) && exchange.message == Some(Authenticate(header, env, verify).message)
      && exchange.authUserId == old(exchange.authUserId) && exchange.forwarded == old(exchange.forwarded)
  {
    ghost var outcome := Authenticate(header, env, verify);
    var token := BearerToken(header);
    if token.None? || token.value == [] {
      assert outcome == Refused(UnauthorizedMessage);
      exchange.status, exchange.message := Some(401), Some(UnauthorizedMessage);
      return;
    }
    if DevTokensAccepted(env) && JsString.StartsWith(token.value, DevTokenPrefix) {
      var userId := token.value[|DevTokenPrefix|..];
      if userId == [] {
        assert outcome == Refused(InvalidTokenMessage);
        exchange.status, exchange.message := Some(401), Some(InvalidTokenMessage);
        return;
      }
      assert outcome == Authenticated(userId);
      exchange.authUserId := Some(userId);
      exchange.forwarded := true;
      return;
    }
    var secret := VerificationSecret(env);
    if secret.None? {
      assert outcome == Refused(InvalidTokenMessage);
      exchange.status, exchange.message := Some(401), Some(InvalidTokenMessage);
      return;
    }
    var verified := verify(token.value, secret.value);
    if verified.Verified? && verified.subject.Some? && verified.subject.value != [] {
      assert outcome == Authenticated(verified.subject.value);
      exchange.authUserId := verified.subject;
      exchange.forwarded := true;
    } else {
      assert outcome == Refused(InvalidTokenMessage);
      exchange.status, exchange.message := Some(401), Some(InvalidTokenMessage);
    }
  }

  // ---------------------------------------------------------------- properties

  /** A header of the form "Bearer <token>" with an unpadded token hands over exactly that token. */
  lemma BearerTokenOfHeader(token: string)
    requires token == [] || (!JsString.IsWhitespace(token[0]) && !JsString.IsWhitespace(token[|token| - 1]))
    ensures BearerToken(Some(BearerPrefix + token)) == Some(token)
  {
    assert (BearerPrefix + token)[..|BearerPrefix|] == BearerPrefix;
    assert (BearerPrefix + token)[|BearerPrefix|..] == token;
    JsString.TrimOfUnpadded(token);
  }

  /** A missing header, or one whose scheme is not exactly "Bearer " (so "bearer x" too), is
      refused with "Unauthorized" whatever the configuration. */
  lemma MissingSchemeRefused(header: Option<string>, env: GatewayEnvironment, verify: Verifier)
    requires header.None? || !JsString.StartsWith(header.value, BearerPrefix)
    ensures Authenticate(header, env, verify) == Refused(UnauthorizedMessage)
  {
  }

  lemma LowercaseSchemeRefused(env: GatewayEnvironment, verify: Verifier)
    ensures Authenticate(Some("bearer dev-token-alice"), env, verify) == Refused(UnauthorizedMessage)
  {
    assert "bearer dev-token-alice"[0] != BearerPrefix[0];
  }

  /** With dev tokens on, "dev-token-<id>" authenticates as <id> for every non-empty id and
      without consulting the verifier; "dev-token-" alone is an invalid token. */
  lemma DevTokenIdentity(userId: string, env: GatewayEnvironment, verify: Verifier)
    requires DevTokensAccepted(env)
    requires userId == [] || !JsString.IsWhitespace(userId[|userId| - 1])
    ensures userId != [] ==> Authenticate(Some(BearerPrefix + DevTokenPrefix + userId), env, verify) == Authenticated(userId)
    ensures userId == [] ==> Authenticate(Some(BearerPrefix + DevTokenPrefix + userId), env, verify) == Refused(InvalidTokenMessage)
  {
    var token := DevTokenPrefix + userId;
    assert BearerPrefix + DevTokenPrefix + userId == BearerPrefix + token;
    assert token[0] == 'd';
    assert token[|token| - 1] == if userId == [] then '-' else userId[|userId| - 1];
    BearerTokenOfHeader(token);
    assert token[..|DevTokenPrefix|] == DevTokenPrefix;
    assert token[|DevTokenPrefix|..] == userId;
    DevTokenAuthenticates(Some(BearerPrefix + token), token, env, verify);
  }

  /** A dev token, accepted, names the user that follows its prefix, and none when nothing does. */
  lemma DevTokenAuthenticates(header: Option<string>, token: string, env: GatewayEnvironment, verify: Verifier)
    requires BearerToken(header) == Some(token) && token != []
    requires DevTokensAccepted(env) && JsString.StartsWith(token, DevTokenPrefix)
    ensures var userId := token[|DevTokenPrefix|..];
      Authenticate(header, env, verify) == if userId == [] then Refused(InvalidTokenMessage) else Authenticated(userId)
  {
  }

  /** Without a usable secret, every token that does not take the dev-token path is refused,
      whatever the verifier would say. */
  lemma NoSecretRefusesSignedTokens(header: Option<string>, env: GatewayEnvironment, verify: Verifier)
    requires VerificationSecret(env).None?
    requires BearerToken(header).Some? && BearerToken(header).value != []
    requires !(DevTokensAccepted(env) && JsString.StartsWith(BearerToken(header).value, DevTokenPrefix))
    ensures Authenticate(header, env, verify) == Refused(InvalidTokenMessage)
  {
  }

  /** A signed token authenticates exactly when it verifies with a non-empty string subject. */
  lemma SignedTokenSubject(header: Option<string>, env: GatewayEnvironment, verify: Verifier)
    requires VerificationSecret(env).Some?
    requires BearerToken(header).Some? && BearerToken(header).value != []
    requires !(DevTokensAccepted(env) && JsString.StartsWith(BearerToken(header).value, DevTokenPrefix))
    ensures var v := verify(BearerToken(header).value, VerificationSecret(env).value);
      Authenticate(header, env, verify).Authenticated? <==> v.Verified? && v.subject.Some? && v.subject.value != []
    ensures var v := verify(BearerToken(header).value, VerificationSecret(env).value);
      Authenticate(header, env, verify).Authenticated? ==> Authenticate(header, env, verify).userId == v.subject.value
  {
  }

  // ---------------------------------------------------------------- agreement with runtime.ts

  /** With a strong JWT_SECRET, the secret tokens are signed with (runtime.ts) is the secret the
      middleware verifies with, so a token whose verification yields subject u authenticates u. */
  lemma StrongSecretAgrees(env: GatewayEnvironment, token: string, verify: Verifier, userId: string)
    requires env.jwtSecret.Some? && RuntimeConfig.IsStrongSecret(env.jwtSecret.value)
    requires token != [] && !JsString.IsWhitespace(token[0]) && !JsString.IsWhitespace(token[|token| - 1])
    requires !JsString.StartsWith(token, DevTokenPrefix)
    requires userId != []
    requires verify(token, RuntimeConfig.JwtSecret(env).value) == Verified(Some(userId))
    ensures RuntimeConfig.JwtSecret(env) == Success(env.jwtSecret.value)
    ensures VerificationSecret(env) == Some(env.jwtSecret.value)
    ensures Authenticate(Some(BearerPrefix + token), env, verify) == Authenticated(userId)
  {
    BearerTokenOfHeader(token);
  }

  /** Outside production with JWT_SECRET unset, tokens are signed with the development secret but
      the middleware has no secret to verify them with: every non-dev token is refused. */
  lemma UnsetSecretRefusesIssuedTokens(env: GatewayEnvironment, token: string, verify: Verifier)
    requires env.jwtSecret.None? && !RuntimeConfig.IsProduction(env)
    requires token != [] && !JsString.IsWhitespace(token[0]) && !JsString.IsWhitespace(token[|token| - 1])
    requires !JsString.StartsWith(token, DevTokenPrefix)
    ensures RuntimeConfig.JwtSecret(env) == Success(RuntimeConfig.DevJwtSecret)
    ensures Authenticate(Some(BearerPrefix + token), env, verify) == Refused(InvalidTokenMessage)
  {
    BearerTokenOfHeader(token);
  }

  /** Outside production with a short JWT_SECRET other than the development secret itself, tokens
      are signed with the development secret and verified with the configured one. */
  lemma WeakSecretMismatch(env: GatewayEnvironment)
    requires env.jwtSecret.Some? && env.jwtSecret.value != []
    requires JsString.Utf16Length(env.jwtSecret.value) < RuntimeConfig.MinSecretLength
    requires env.jwtSecret.value != RuntimeConfig.DevJwtSecret && !RuntimeConfig.IsProduction(env)
    ensures RuntimeConfig.JwtSecret(env) == Success(RuntimeConfig.DevJwtSecret)
    ensures VerificationSecret(env).Some? && VerificationSecret(env).value != RuntimeConfig.JwtSecret(env).value
  {
  }

  /** Under NODE_ENV=production runtime.ts reports dev tokens as disabled, yet with
      ALLOW_DEV_TOKENS unset the middleware still accepts them. */
  lemma ProductionStillAcceptsDevTokens(env: GatewayEnvironment, userId: string, verify: Verifier)
    requires RuntimeConfig.IsProduction(env) && env.allowDevTokens.None?
    requires userId != [] && !JsString.IsWhitespace(userId[|userId| - 1])
    ensures !RuntimeConfig.DevTokensAllowed(env)
    ensures Authenticate(Some(BearerPrefix + DevTokenPrefix + userId), env, verify) == Authenticated(userId)
  {
    DevTokenIdentity(userId, env, verify);
  }
}
