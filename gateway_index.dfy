/** The gateway's listening port (apps/gateway/src/index.ts): PORT read with Number.parseInt,
    falling back to 8082 when it is unset, not a number or outside 1..65535. */
module GatewayPort {
  import opened Wrappers
  import JsString

  const FallbackPort := 8082
  const MaxPort := 65535

  function ParsePort(rawPort: Option<string>): (port: int)
    ensures 1 <= port <= MaxPort
    ensures port == FallbackPort || (rawPort.Some? && JsString.ParseInt(rawPort.value) == Some(port))
    ensures rawPort.Some? && JsString.ParseInt(rawPort.value).Some? && 1 <= JsString.ParseInt(rawPort.value).value <= MaxPort ==>
      port == JsString.ParseInt(rawPort.value).value
  {
    JsString.ParseIntOfIntString(FallbackPort);
    var parsed := JsString.ParseInt(if rawPort.Some? then rawPort.value else JsString.IntString(FallbackPort));
    if parsed.None? || parsed.value <= 0 || parsed.value > MaxPort then FallbackPort else parsed.value
  }

  /** A port written in decimal, optionally followed by other text ("8080abc"), is taken. */
  lemma DecimalPortAccepted(n: nat, suffix: string)
    requires 1 <= n <= MaxPort
    requires suffix == [] || !JsString.IsDigit(suffix[0])
    ensures ParsePort(Some(JsString.DecimalString(n) + suffix)) == n
  {
    JsString.ParseIntIgnoresSuffix(n, suffix);
  }

  /** A decimal port above 65535, or 0, falls back to 8082. */
  lemma OutOfRangeFallsBack(n: nat)
    requires n == 0 || n > MaxPort
    ensures ParsePort(Some(JsString.DecimalString(n))) == FallbackPort
  {
    JsString.ParseIntOfDecimalString(n);
  }

  /** So does a setting that does not start with a digit after optional blanks and sign. */
  lemma NonNumericFallsBack(raw: string)
    requires var body := JsString.SignStripped(JsString.TrimStart(raw)); body == [] || !JsString.IsDigit(body[0])
    ensures ParsePort(Some(raw)) == FallbackPort
  {
  }
}
