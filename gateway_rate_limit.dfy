/** The gateway's fixed-window request limiter (apps/gateway/src/middleware/rateLimit.ts). Each
    middleware instance owns a map from a key extracted from the request to the number of requests
    admitted in the key's current window and the time that window started. Times are integer
    milliseconds, passed in where the source reads Date.now(). */
module RateLimit {
  import opened Wrappers
  import JsString
  import AuthControlsConfig

  datatype RateLimitEntry = RateLimitEntry(count: int, windowStartedAt: int)

  /** What the middleware does with one request: call next(), or answer 429 with a Retry-After
      header (the delay-seconds form of section 10.2.3 of RFC 9110). */
  datatype Decision = Admitted | TooManyRequests(retryAfterSeconds: int) {
    function Status(): int {
      if Admitted? then 200 else 429
    }
  }

  const TooManyRequestsMessage := "Too many requests"

  function Max(a: int, b: int): int {
    if a >= b then a else b
  }

  function Min(a: int, b: int): int {
    if a <= b then a else b
  }

  /** Math.ceil(x / 1000) for an integer number of milliseconds `x`. */
  function CeilDiv1000(x: int): (q: int)
    ensures 1000 * (q - 1) < x <= 1000 * q
  {
    -((-x) / 1000)
  }

  /** The Retry-After value: the seconds left in the window, rounded up, and never below 1. */
  function RetryAfterSeconds(windowMs: int, elapsed: int): (r: int)
    ensures r >= 1
    ensures windowMs - elapsed <= 1000 ==> r == 1
    ensures windowMs - elapsed > 1000 ==> 1000 * (r - 1) < windowMs - elapsed <= 1000 * r
  {
    Max(CeilDiv1000(windowMs - elapsed), 1)
  }

  /** The text of the Retry-After header: String(retryAfterSeconds). */
  function RetryAfterHeader(d: Decision): (h: string)
    requires d.TooManyRequests?
    ensures JsString.ParseInt(h) == Some(d.retryAfterSeconds)
  {
    JsString.ParseIntOfIntString(d.retryAfterSeconds);
    JsString.IntString(d.retryAfterSeconds)
  }

  /** One call of the middleware for the request whose extracted key is `key`: the decision and
      the map afterwards. */
  function Step(entries: map<string, RateLimitEntry>, key: string, now: int, maxRequests: int, windowMs: int)
    : (res: (Decision, map<string, RateLimitEntry>))
    ensures res.1.Keys == entries.Keys + {key}
    ensures forall k :: k in entries && k != key ==> res.1[k] == entries[k]
    ensures res.0.TooManyRequests? ==> res.1 == entries && res.0.retryAfterSeconds >= 1
    ensures res.0.TooManyRequests? ==>
      res.0.retryAfterSeconds == RetryAfterSeconds(windowMs, now - entries[key].windowStartedAt)
    ensures res.0.TooManyRequests? <==>
      key in entries && now - entries[key].windowStartedAt < windowMs && entries[key].count >= maxRequests
  {
    if key !in entries || now - entries[key].windowStartedAt >= windowMs then
      (Admitted, entries[key := RateLimitEntry(1, now)])
    else if entries[key].count >= maxRequests then
      (TooManyRequests(RetryAfterSeconds(windowMs, now - entries[key].windowStartedAt)), entries)
    else
      (Admitted, entries[key := entries[key].(count := entries[key].count + 1)])
  }

  /** The object invariant of the map: every window has admitted at least one request and at
      most maxRequests of them (or the single first one when maxRequests is below 1). */
  ghost predicate Bounded(entries: map<string, RateLimitEntry>, maxRequests: int) {
    forall k :: k in entries ==> 1 <= entries[k].count <= Max(maxRequests, 1)
  }

  lemma StepPreservesBounded(entries: map<string, RateLimitEntry>, key: string, now: int, maxRequests: int, windowMs: int)
    requires Bounded(entries, maxRequests)
    ensures Bounded(Step(entries, key, now, maxRequests, windowMs).1, maxRequests)
  {
  }

  /** The middleware created by createRateLimitMiddleware: its own map, its own options. */
  class RateLimiter {
    const maxRequests: int
    const windowMs: int
    var entries: map<string, RateLimitEntry>

    ghost predicate Valid()
      reads this
    {
      Bounded(entries, maxRequests)
    }

    constructor (maxRequests: int, windowMs: int)
      ensures this.maxRequests == maxRequests && this.windowMs == windowMs
      ensures entries == map[] && Valid()
    {
      this.maxRequests := maxRequests;
      this.windowMs := windowMs;
      entries := map[];
    }

    /** Handle one request whose extracted key is `key`, arriving at time `now`. */
    method Handle(key: string, now: int) returns (d: Decision)
      requires Valid()
      modifies this
      ensures Valid()
      ensures (d, entries) == Step(old(entries), key, now, maxRequests, windowMs)
    {
      StepPreservesBounded(entries, key, now, maxRequests, windowMs);
      if key !in entries || now - entries[key].windowStartedAt >= windowMs {
        entries := entries[key := RateLimitEntry(1, now)];
        return Admitted;
      }
      var existing := entries[key];
      if existing.count >= maxRequests {
        var retryAfterSeconds := CeilDiv1000(windowMs - (now - existing.windowStartedAt));
        return TooManyRequests(Max(retryAfterSeconds, 1));
      }
      entries := entries[key := existing.(count := existing.count + 1)];
      return Admitted;
    }
  }

  /** getClientIp: request.ip when it is a non-empty string, else "unknown". */
  function ClientIp(ip: Option<string>): (r: string)
    ensures r != []
    ensures ip.Some? && ip.value != [] ==> r == ip.value
    ensures ip.None? || ip.value == [] ==> r == "unknown"
  {
    if ip.Some? && |ip.value| > 0 then ip.value else "unknown"
  }

  /** The options of authRateLimit, from AUTH_RATE_LIMIT_MAX and AUTH_RATE_LIMIT_WINDOW_MS. */
  function AuthRateLimitOptions(rawMax: Option<string>, rawWindowMs: Option<string>): (opts: (int, int))
    ensures opts.0 > 0 && opts.1 > 0
  {
    (AuthControlsConfig.ParsePositiveInt(rawMax, 20), AuthControlsConfig.ParsePositiveInt(rawWindowMs, 60000))
  }

  /** With both variables unset authRateLimit admits 20 requests per 60000 ms. */
  lemma AuthRateLimitDefaults()
    ensures AuthRateLimitOptions(None, None) == (20, 60000)
  {
    AuthControlsConfig.UnsetYieldsFallback(20);
    AuthControlsConfig.UnsetYieldsFallback(60000);
  }

  /** The requests of one key at the given times, in order: the decisions and the final map. */
  function Run(entries: map<string, RateLimitEntry>, key: string, times: seq<int>, maxRequests: int, windowMs: int)
    : (res: (seq<Decision>, map<string, RateLimitEntry>))
    ensures |res.0| == |times|
    decreases |times|
  {
    if times == [] then ([], entries)
    else
      var before := Run(entries, key, times[..|times| - 1], maxRequests, windowMs);
      var after := Step(before.1, key, times[|times| - 1], maxRequests, windowMs);
      (before.0 + [after.0], after.1)
  }

  /** A burst of requests inside one window, starting on a fresh window: the first request and
      every request up to the maxRequests-th is admitted, every later one is rejected, and the
      count stops at maxRequests. */
  lemma {:induction false} BurstWithinWindow(entries: map<string, RateLimitEntry>, key: string, times: seq<int>, maxRequests: int, windowMs: int)
    requires |times| >= 1
    requires key !in entries || times[0] - entries[key].windowStartedAt >= windowMs
    requires forall i :: 0 <= i < |times| ==> times[i] - times[0] < windowMs
    ensures var res := Run(entries, key, times, maxRequests, windowMs);
      && key in res.1
      && res.1[key] == RateLimitEntry(Min(|times|, Max(maxRequests, 1)), times[0])
      && forall i :: 0 <= i < |times| ==> (res.0[i].Admitted? <==> i == 0 || i < maxRequests)
    decreases |times|
  {
    var n := |times|;
    var prefix := times[..n - 1];
    if n == 1 {
      assert prefix == [];
    } else {
      assert prefix[0] == times[0];
      BurstWithinWindow(entries, key, prefix, maxRequests, windowMs);
      var before := Run(entries, key, prefix, maxRequests, windowMs);
      var after := Step(before.1, key, times[n - 1], maxRequests, windowMs);
      assert Run(entries, key, times, maxRequests, windowMs).0 == before.0 + [after.0];
    }
  }

  /** Once windowMs has passed since the window started, the next request is admitted and opens
      a new window, however many requests were rejected before. */
  lemma WindowElapsedAdmits(entries: map<string, RateLimitEntry>, key: string, now: int, maxRequests: int, windowMs: int)
    requires key in entries && now - entries[key].windowStartedAt >= windowMs
    ensures Step(entries, key, now, maxRequests, windowMs).0 == Admitted
    ensures Step(entries, key, now, maxRequests, windowMs).1[key] == RateLimitEntry(1, now)
  {
  }

  /** A rejection never moves the window nor changes any count. */
  lemma RejectionKeepsWindow(entries: map<string, RateLimitEntry>, key: string, now: int, maxRequests: int, windowMs: int)
    requires Step(entries, key, now, maxRequests, windowMs).0.TooManyRequests?
    ensures Step(entries, key, now, maxRequests, windowMs).1 == entries
  {
  }

  /** Retry-After never exceeds the window length in whole seconds when the clock has not gone
      backwards since the window opened. */
  lemma RetryAfterAtMostWindow(windowMs: int, elapsed: int)
    requires windowMs >= 1 && elapsed >= 0
    ensures RetryAfterSeconds(windowMs, elapsed) <= CeilDiv1000(windowMs)
  {
    var q := CeilDiv1000(windowMs - elapsed);
    var w := CeilDiv1000(windowMs);
    assert 1000 * (q - 1) < windowMs - elapsed <= windowMs <= 1000 * w;
  }

  /** Retry-After is the wait the client needs: a request of the same key that many seconds
      after a rejection is admitted on a new window, and one a second earlier is still rejected
      when Retry-After is more than 1. */
  lemma RetryAfterIsTheWait(entries: map<string, RateLimitEntry>, key: string, now: int, maxRequests: int, windowMs: int)
    requires Step(entries, key, now, maxRequests, windowMs).0.TooManyRequests?
    ensures var r := Step(entries, key, now, maxRequests, windowMs).0.retryAfterSeconds;
      && Step(entries, key, now + 1000 * r, maxRequests, windowMs).0 == Admitted
      && (r > 1 ==> Step(entries, key, now + 1000 * (r - 1), maxRequests, windowMs).0.TooManyRequests?)
  {
  }
}
