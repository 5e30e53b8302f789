// The request-level wrapper of the rate limiter: who is counted, which tier
// applies, and the response headers and status that report the verdict.
module RateLimitMiddleware {
  import opened Wrappers
  import Text
  import Sorting
  import RateLimiter

  /** The headers the limiter sets. */
  datatype HeaderName = LimitHeader | RemainingHeader | ResetHeader | ErrorHeader | RetryAfterHeader

  datatype Header = Header(name: HeaderName, value: string)

  /** The request as far as the limiter reads it; header names are lower-case keys. */
  datatype Request = Request(pathname: string, headers: map<string, string>)

  /** The limiter's answer, or an exception raised while obtaining it. */
  datatype CheckOutcome = Checked(result: RateLimiter.RateLimitResult) | CheckThrew

  datatype Response =
    | TooManyRequests(status: int, headers: seq<Header>, retryAfter: Option<int>)
    | Continue(headers: seq<Header>)

  /** The names as sent on the wire. */
  function WireName(n: HeaderName): string
  {
    match n
    case LimitHeader => "X-RateLimit-Limit"
    case RemainingHeader => "X-RateLimit-Remaining"
    case ResetHeader => "X-RateLimit-Reset"
    case ErrorHeader => "X-RateLimit-Error"
    case RetryAfterHeader => "Retry-After"
  }
  const ExceededMessage: string := "Rate limit exceeded"
  const UnavailableMessage: string := "unavailable"

  function HeaderNames(hs: seq<Header>): seq<HeaderName>
  {
    if |hs| == 0 then [] else [hs[0].name] + HeaderNames(hs[1..])
  }

  /** The first header of that name. */
  function HeaderValue(hs: seq<Header>, name: HeaderName): Option<string>
  {
    if |hs| == 0 then None else if hs[0].name == name then Some(hs[0].value) else HeaderValue(hs[1..], name)
  }

  /** Headers before the first of a name do not change what it looks up. */
  lemma {:induction false} LookupPast(a: seq<Header>, b: seq<Header>, name: HeaderName)
    requires name !in HeaderNames(a)
    ensures HeaderValue(a + b, name) == HeaderValue(b, name)
    ensures name in HeaderNames(a + b) <==> name in HeaderNames(b)
  {
    if |a| > 0 {
      assert (a + b)[1..] == a[1..] + b;
      LookupPast(a[1..], b, name);
    } else {
      assert a + b == b;
    }
  }

  lemma CountingNames(limit: string, remaining: string, reset: string)
    ensures HeaderNames([Header(LimitHeader, limit), Header(RemainingHeader, remaining), Header(ResetHeader, reset)])
         == [LimitHeader, RemainingHeader, ResetHeader]
  {
    var counting := [Header(LimitHeader, limit), Header(RemainingHeader, remaining), Header(ResetHeader, reset)];
    var last := [Header(ResetHeader, reset)];
    assert last[1..] == [];
    assert HeaderNames(last) == [ResetHeader];
    assert counting[1..][1..] == last;
    assert HeaderNames(counting[1..]) == [RemainingHeader, ResetHeader];
  }

  /** The counting headers, then an optional error header, then an optional retry header. */
  lemma HeadersLayout(counting: seq<Header>, errorPart: seq<Header>, retryPart: seq<Header>)
    requires HeaderNames(counting) == [LimitHeader, RemainingHeader, ResetHeader]
    requires errorPart == [] || (|errorPart| == 1 && errorPart[0].name == ErrorHeader)
    requires retryPart == [] || (|retryPart| == 1 && retryPart[0].name == RetryAfterHeader)
    ensures var hs := counting + errorPart + retryPart;
      && (ErrorHeader in HeaderNames(hs) <==> errorPart != [])
      && (RetryAfterHeader in HeaderNames(hs) <==> retryPart != [])
      && HeaderValue(hs, ErrorHeader) == (if errorPart == [] then None else Some(errorPart[0].value))
      && HeaderValue(hs, RetryAfterHeader) == (if retryPart == [] then None else Some(retryPart[0].value))
  {
    LookupPast(counting, errorPart + retryPart, ErrorHeader);
    LookupPast(counting, errorPart + retryPart, RetryAfterHeader);
    LookupPast(errorPart, retryPart, RetryAfterHeader);
    LookupPast(retryPart, [], ErrorHeader);
    assert retryPart + [] == retryPart;
    assert counting + errorPart + retryPart == counting + (errorPart + retryPart);
  }

  /** A numeric argument is truthy when present and non-zero. */
  predicate TruthyNumber(n: Option<int>)
  {
    n.Some? && n.value != 0
  }

  /**
   * The three counting headers always; the error header only for a non-empty
   * error; the retry header only for a non-zero delay.
   */
  function CreateRateLimitHeaders(limit: int, remaining: int, reset: int, error: Option<string>, retryAfter: Option<int>)
    : (hs: seq<Header>)
    ensures |hs| >= 3
    ensures hs[0] == Header(LimitHeader, Text.IntToString(limit))
    ensures hs[1] == Header(RemainingHeader, Text.IntToString(remaining))
    ensures hs[2] == Header(ResetHeader, Text.IntToString(reset))
    ensures ErrorHeader in HeaderNames(hs) <==> Text.TruthyString(error)
    ensures RetryAfterHeader in HeaderNames(hs) <==> TruthyNumber(retryAfter)
    ensures Text.TruthyString(error) ==> HeaderValue(hs, ErrorHeader) == error
    ensures !Text.TruthyString(error) ==> HeaderValue(hs, ErrorHeader) == None
    ensures TruthyNumber(retryAfter) ==> HeaderValue(hs, RetryAfterHeader) == Some(Text.IntToString(retryAfter.value))
  {
    var counting := [Header(LimitHeader, Text.IntToString(limit)), Header(RemainingHeader, Text.IntToString(remaining)),
                     Header(ResetHeader, Text.IntToString(reset))];
    var errorPart := if Text.TruthyString(error) then [Header(ErrorHeader, error.value)] else [];
    var retryPart := if TruthyNumber(retryAfter) then [Header(RetryAfterHeader, Text.IntToString(retryAfter.value))] else [];
    CountingNames(Text.IntToString(limit), Text.IntToString(remaining), Text.IntToString(reset));
    HeadersLayout(counting, errorPart, retryPart);
    counting + errorPart + retryPart
  }

  function HeaderOf(r: Request, name: string): Option<string>
  {
    if name in r.headers then Some(r.headers[name]) else None
  }

  /** `ip:` and the first field of x-forwarded-for, else x-real-ip, else `unknown`. */
  function GetClientIdentifier(r: Request): (id: string)
    ensures Text.StartsWith(id, "ip:")
    ensures Text.TruthyString(HeaderOf(r, "x-forwarded-for")) && Text.Split(r.headers["x-forwarded-for"], ',')[0] != ""
            ==> id == "ip:" + Text.Split(r.headers["x-forwarded-for"], ',')[0]
    ensures (!Text.TruthyString(HeaderOf(r, "x-forwarded-for")) || Text.Split(r.headers["x-forwarded-for"], ',')[0] == "")
            ==> id == "ip:" + Text.OrElse(HeaderOf(r, "x-real-ip"), "unknown")
    ensures !Text.TruthyString(HeaderOf(r, "x-forwarded-for")) && !Text.TruthyString(HeaderOf(r, "x-real-ip")) ==> id == "ip:unknown"
  {
    var forwarded := HeaderOf(r, "x-forwarded-for");
    var first := if forwarded.Some? then Some(Text.Split(forwarded.value, ',')[0]) else None;
    "ip:" + Text.OrElse(first, Text.OrElse(HeaderOf(r, "x-real-ip"), "unknown"))
  }

  /**
   * `user:<id>` for a signed-in user, else `key:` and the first ten
   * characters of the API key's base64 form, else the client identifier.
   */
  function GetUserIdentifier(r: Request, userId: Option<string>, base64: string -> string): (id: string)
    ensures Text.TruthyString(userId) ==> id == "user:" + userId.value
    ensures !Text.TruthyString(userId) && Text.TruthyString(HeaderOf(r, "x-api-key")) ==>
              id == "key:" + Sorting.Take(base64(r.headers["x-api-key"]), 10) && |id| <= 14
    ensures !Text.TruthyString(userId) && !Text.TruthyString(HeaderOf(r, "x-api-key")) ==> id == GetClientIdentifier(r)
  {
    if Text.TruthyString(userId) then "user:" + userId.value
    else
      var apiKey := HeaderOf(r, "x-api-key");
      if Text.TruthyString(apiKey) then
        var encoded := base64(apiKey.value);
        "key:" + Sorting.Take(encoded, 10)
      else GetClientIdentifier(r)
  }

  /** Users, API keys and addresses are counted in disjoint buckets. */
  lemma IdentifierKindsDisjoint(r1: Request, r2: Request, userId: string, base64: string -> string)
    requires userId != ""
    ensures GetUserIdentifier(r1, Some(userId), base64) != GetClientIdentifier(r2)
    ensures Text.TruthyString(HeaderOf(r1, "x-api-key")) ==>
              GetUserIdentifier(r1, None, base64) != GetClientIdentifier(r2)
              && GetUserIdentifier(r1, None, base64) != GetUserIdentifier(r2, Some(userId), base64)
  {
    var c := GetClientIdentifier(r2);
    assert c[0] == 'i';
    assert GetUserIdentifier(r1, Some(userId), base64)[0] == 'u';
    if Text.TruthyString(HeaderOf(r1, "x-api-key")) {
      assert GetUserIdentifier(r1, None, base64)[0] == 'k';
    }
  }

  /** The bucket the limiter counts a request in. */
  function Bucket(r: Request, isAuthenticated: bool, userId: Option<string>, base64: string -> string): (id: string)
    ensures !isAuthenticated ==> id == GetClientIdentifier(r)
  {
    if isAuthenticated then GetUserIdentifier(r, userId, base64) else GetClientIdentifier(r)
  }

  /**
   * `applyRateLimit`: nothing for paths outside /api; otherwise the verdict
   * `check` gives for the caller's bucket and tier, a 429 when refused.
   * `nowAfter` is the clock read on the failure path.
   */
  function ApplyRateLimit(r: Request, isAuthenticated: bool, userId: Option<string>, base64: string -> string,
                          check: (string, RateLimiter.Tier) -> CheckOutcome, nowAfter: int): (resp: Option<Response>)
    ensures resp.None? <==> !Text.StartsWith(r.pathname, "/api")
    ensures var tier := RateLimiter.GetRateLimitTier(r.pathname, isAuthenticated);
      var outcome := check(Bucket(r, isAuthenticated, userId, base64), tier);
      resp.Some? ==>
        (resp.value.TooManyRequests? <==> outcome.Checked? && !outcome.result.success)
        && (resp.value.TooManyRequests? ==>
              (resp.value.status == 429
               && HeaderValue(resp.value.headers, ErrorHeader) == Some(ExceededMessage)
               && resp.value.retryAfter == outcome.result.retryAfter))
        && (outcome.Checked? ==>
              resp.value.headers == CreateRateLimitHeaders(outcome.result.limit, outcome.result.remaining,
                                                            outcome.result.reset,
                                                            if outcome.result.success then None else Some(ExceededMessage),
                                                            outcome.result.retryAfter))
        && (outcome.Checked? && outcome.result.success ==>
              resp.value.Continue? && HeaderValue(resp.value.headers, ErrorHeader) == None)
        && (outcome.CheckThrew? ==>
              resp.value == Continue(CreateRateLimitHeaders(tier.max, tier.max - 1, nowAfter + tier.window * 1000,
                                                            Some(UnavailableMessage), None)))
  {
    if !Text.StartsWith(r.pathname, "/api") then None
    else
      var identifier := if isAuthenticated then GetUserIdentifier(r, userId, base64) else GetClientIdentifier(r);
      var tier := RateLimiter.GetRateLimitTier(r.pathname, isAuthenticated);
      match check(identifier, tier)
      case Checked(result) =>
        var headers := CreateRateLimitHeaders(result.limit, result.remaining, result.reset,
                                              if result.success then None else Some(ExceededMessage),
                                              result.retryAfter);
        if !result.success then Some(TooManyRequests(429, headers, result.retryAfter))
        else Some(Continue(headers))
      case CheckThrew =>
        Some(Continue(CreateRateLimitHeaders(tier.max, tier.max - 1, nowAfter + tier.window * 1000,
                                             Some(UnavailableMessage), None)))
  }
}
