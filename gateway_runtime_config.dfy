/** The gateway's runtime settings (apps/gateway/src/config/runtime.ts): the secret that signs
    issued tokens and whether development tokens are allowed, both read from the environment. */
module RuntimeConfig {
  import opened Wrappers
  import JsString

  /** NODE_ENV, JWT_SECRET and ALLOW_DEV_TOKENS, each possibly unset. */
  datatype GatewayEnvironment = GatewayEnvironment(
    nodeEnv: Option<string>,
    jwtSecret: Option<string>,
    allowDevTokens: Option<string>)

  const DevJwtSecret := "relaydocs-dev-secret"
  const PlaceholderSecret := "replace-in-production"
  const MinSecretLength := 32

  predicate IsProduction(env: GatewayEnvironment) {
    env.nodeEnv == Some("production")
  }

  /** The error getJwtSecret throws: a weak or missing secret under NODE_ENV=production. */
  datatype StartupError = WeakSecretInProduction

  /** A configured secret is used when it has at least 32 UTF-16 code units and is not the
      placeholder. */
  predicate IsStrongSecret(s: string) {
    JsString.Utf16Length(s) >= MinSecretLength && s != PlaceholderSecret
  }

  /** getJwtSecret: the configured secret when it is strong; otherwise an error in production and
      the fixed development secret elsewhere. */
  function JwtSecret(env: GatewayEnvironment): (r: Result<string, StartupError>)
    ensures env.jwtSecret.Some? && IsStrongSecret(env.jwtSecret.value) ==> r == Success(env.jwtSecret.value)
    ensures r.Failure? <==> IsProduction(env) && !(env.jwtSecret.Some? && IsStrongSecret(env.jwtSecret.value))
    ensures r.Success? && !(env.jwtSecret.Some? && IsStrongSecret(env.jwtSecret.value)) ==> r.value == DevJwtSecret
  {
    if env.jwtSecret.Some? && IsStrongSecret(env.jwtSecret.value) then Success(env.jwtSecret.value)
    else if IsProduction(env) then Failure(WeakSecretInProduction)
    else Success(DevJwtSecret)
  }

  /** The placeholder is 21 code units long, so the length test alone already rejects it. */
  lemma PlaceholderCheckRedundant(s: string)
    ensures JsString.Utf16Length(s) >= MinSecretLength ==> IsStrongSecret(s)
  {
    JsString.Utf16LengthOfBmp(PlaceholderSecret);
  }

  /** In production every secret getJwtSecret returns has at least 32 code units. */
  lemma ProductionSecretIsStrong(env: GatewayEnvironment)
    requires IsProduction(env) && JwtSecret(env).Success?
    ensures JsString.Utf16Length(JwtSecret(env).value) >= MinSecretLength
  {
  }

  /** allowDevTokens: never in production; elsewhere unless ALLOW_DEV_TOKENS is exactly "false". */
  function DevTokensAllowed(env: GatewayEnvironment): (allowed: bool)
    ensures IsProduction(env) ==> !allowed
    ensures !IsProduction(env) ==> (allowed <==> env.allowDevTokens != Some("false"))
  {
    if IsProduction(env) then false else env.allowDevTokens != Some("false")
  }
}
