/** The gateway's authentication-control settings (apps/gateway/src/security/authControlsConfig.ts):
    five positive integers read from the environment, each with its own default. */
module AuthControlsConfig {
  import opened Wrappers
  import JsString

  /** parsePositiveInt(rawValue, fallback): an unset variable parses `String(fallback)`; a value
      that is not a number or not positive yields the fallback. The same helper is repeated in
      apps/gateway/src/middleware/rateLimit.ts. */
  function ParsePositiveInt(raw: Option<string>, fallback: int): (r: int)
    ensures fallback > 0 ==> r > 0
    ensures r == fallback || (r > 0 && raw.Some? && JsString.ParseInt(raw.value) == Some(r))
  {
    var parsed := JsString.ParseInt(if raw.Some? then raw.value else JsString.IntString(fallback));
    JsString.ParseIntOfIntString(fallback);
    if parsed.None? || parsed.value <= 0 then fallback else parsed.value
  }

  /** An unset variable yields the fallback, whatever its sign. */
  lemma UnsetYieldsFallback(fallback: int)
    ensures ParsePositiveInt(None, fallback) == fallback
  {
  }

  /** A set variable that is not a number, or that parses to zero or less, yields the fallback;
      one that parses to a positive integer yields that integer. */
  lemma SetValueParsedOrFallback(raw: string, fallback: int)
    ensures JsString.ParseInt(raw).None? ==> ParsePositiveInt(Some(raw), fallback) == fallback
    ensures JsString.ParseInt(raw).Some? && JsString.ParseInt(raw).value <= 0 ==> ParsePositiveInt(Some(raw), fallback) == fallback
    ensures JsString.ParseInt(raw).Some? && JsString.ParseInt(raw).value > 0 ==> ParsePositiveInt(Some(raw), fallback) == JsString.ParseInt(raw).value
  {
  }

  /** Base-10 parseInt accepts a leading run of digits: "15ms" configures 15. */
  lemma DigitPrefixAccepted(n: nat, suffix: string, fallback: int)
    requires n > 0
    requires suffix == [] || !JsString.IsDigit(suffix[0])
    ensures ParsePositiveInt(Some(JsString.DecimalString(n) + suffix), fallback) == n
  {
    JsString.ParseIntIgnoresSuffix(n, suffix);
  }

  datatype AuthControls = AuthControls(
    rateLimitMax: int,
    rateLimitWindowMs: int,
    lockoutThreshold: int,
    lockoutWindowMs: int,
    lockoutDurationMs: int)
  {
    predicate Valid() {
      rateLimitMax > 0 && rateLimitWindowMs > 0 && lockoutThreshold > 0 && lockoutWindowMs > 0 && lockoutDurationMs > 0
    }
  }

  /** AUTH_RATE_LIMIT_MAX, AUTH_RATE_LIMIT_WINDOW_MS, AUTH_LOCKOUT_THRESHOLD,
      AUTH_LOCKOUT_WINDOW_MS and AUTH_LOCKOUT_DURATION_MS, each possibly unset. */
  datatype ControlsEnvironment = ControlsEnvironment(
    rateLimitMax: Option<string>,
    rateLimitWindowMs: Option<string>,
    lockoutThreshold: Option<string>,
    lockoutWindowMs: Option<string>,
    lockoutDurationMs: Option<string>)

  const DefaultRateLimitMax := 20
  const DefaultRateLimitWindowMs := 60000
  const DefaultLockoutThreshold := 5
  const DefaultLockoutWindowMs := 900000
  const DefaultLockoutDurationMs := 900000

  /** The authControlsConfig record: every setting is positive, whatever the environment holds. */
  function FromEnvironment(env: ControlsEnvironment): (c: AuthControls)
    ensures c.Valid()
  {
    AuthControls(
      ParsePositiveInt(env.rateLimitMax, DefaultRateLimitMax),
      ParsePositiveInt(env.rateLimitWindowMs, DefaultRateLimitWindowMs),
      ParsePositiveInt(env.lockoutThreshold, DefaultLockoutThreshold),
      ParsePositiveInt(env.lockoutWindowMs, DefaultLockoutWindowMs),
      ParsePositiveInt(env.lockoutDurationMs, DefaultLockoutDurationMs))
  }

  /** With nothing set: at most 20 requests per minute, and five failures within fifteen minutes
      lock the account for fifteen minutes. */
  lemma DefaultsWhenUnset()
    ensures FromEnvironment(ControlsEnvironment(None, None, None, None, None))
         == AuthControls(20, 60000, 5, 900000, 900000)
  {
    UnsetYieldsFallback(20);
    UnsetYieldsFallback(60000);
    UnsetYieldsFallback(5);
    UnsetYieldsFallback(900000);
  }
}
