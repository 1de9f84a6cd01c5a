/** The rate-limit gate of lib/rateLimitHandler.ts. The sliding-window limiter
    itself is an oracle: a function from the resolved settings and the client
    key to the limiter's verdict. */
module RateLimit {
  import opened Wrappers
  import opened JsonValue
  import opened Http

  datatype Request = Request(headers: map<string, string>, ip: Option<string>)

  /** `Ratelimit.slidingWindow(tokens, window)`. */
  datatype Limiter = SlidingWindow(tokens: int, window: string)

  /** The handler's configuration; an omitted option is `None`. */
  datatype Config = Config(limiter: Limiter, analytics: Option<bool>, timeout: Option<int>)

  /** The options the limiter is built with. */
  datatype Settings = Settings(limiter: Limiter, analytics: bool, timeout: int)

  /** What `rateLimit.limit(key)` resolves to. */
  datatype Verdict = Verdict(success: bool, limit: int, reset: int, remaining: int)

  const Loopback := "127.0.0.1"

  const LimitMessage := "You have reached the maximum number of requests. Please try again later."

  /** `headers.get(name)` read with JavaScript truthiness: present and non-empty. */
  predicate HasHeader(request: Request, name: string) {
    name in request.headers && request.headers[name] != ""
  }

  /** `x-real-ip || x-forwarded-for || req.ip || '127.0.0.1'`. */
  function ClientKey(request: Request): (key: string)
    ensures key != ""
    ensures HasHeader(request, "x-real-ip") ==> key == request.headers["x-real-ip"]
    ensures !HasHeader(request, "x-real-ip") && HasHeader(request, "x-forwarded-for") ==>
              key == request.headers["x-forwarded-for"]
    ensures !HasHeader(request, "x-real-ip") && !HasHeader(request, "x-forwarded-for") ==>
              key == (if request.ip.Some? && request.ip.value != "" then request.ip.value else Loopback)
  {
    if HasHeader(request, "x-real-ip") then request.headers["x-real-ip"]
    else if HasHeader(request, "x-forwarded-for") then request.headers["x-forwarded-for"]
    else if request.ip.Some? && request.ip.value != "" then request.ip.value
    else Loopback
  }

  /** `analytics ?? true`, `timeout ?? 1000`: only an omitted option is defaulted. */
  function Resolve(config: Config): (s: Settings)
    ensures s.limiter == config.limiter
    ensures s.analytics == (config.analytics != Some(false))
    ensures config.timeout.Some? ==> s.timeout == config.timeout.value
    ensures config.timeout.None? ==> s.timeout == 1000
  {
    Settings(config.limiter, config.analytics.GetOr(true), config.timeout.GetOr(1000))
  }

  /** The 429 answer echoing the limiter's figures. */
  function LimitedResponse(v: Verdict): Response {
    JsonResponse(JObject(map[
      "status" := JString("error"),
      "message" := JString(LimitMessage),
      "limit" := JNumber(v.limit),
      "reset" := JNumber(v.reset),
      "remaining" := JNumber(v.remaining)]), 429)
  }

  /** `handleRateLimit(req, config)`: `None` (null) lets the request through. */
  function HandleRateLimit(request: Request, config: Config, limiter: (Settings, string) -> Verdict): (r: Option<Response>)
    ensures var v := limiter(Resolve(config), ClientKey(request));
            && (r.None? <==> v.success)
            && (r.Some? ==> r.value.status == 429
                            && r.value.body.JsonBody?
                            && r.value.body.value.JObject?
                            && {"limit", "reset", "remaining"} <= r.value.body.value.fields.Keys
                            && r.value.body.value.fields["limit"] == JNumber(v.limit)
                            && r.value.body.value.fields["reset"] == JNumber(v.reset)
                            && r.value.body.value.fields["remaining"] == JNumber(v.remaining))
  {
    var verdict := limiter(Resolve(config), ClientKey(request));
    if !verdict.success then Some(LimitedResponse(verdict)) else None
  }

  /** At one limiter state, the gate sees nothing of a request beyond its client
      key. (The real limiter also counts requests per key over time, so the same
      key can be allowed once and refused later.) */
  lemma GateDependsOnlyOnKey(a: Request, b: Request, config: Config, limiter: (Settings, string) -> Verdict)
    requires ClientKey(a) == ClientKey(b)
    ensures HandleRateLimit(a, config, limiter) == HandleRateLimit(b, config, limiter)
  {
  }
}
