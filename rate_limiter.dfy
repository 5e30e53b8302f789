// Sliding-window admission control: an in-memory store of request timestamps
// per key, the equivalent counting rule of the Redis sorted-set variant, the
// shaping of the caller's result with its fail-open path, and the tier table.
module RateLimiter {
  import opened Wrappers
  import Text
  import Sorting
  import JsMath

  datatype Tier = Tier(max: int, window: int)

  const Unauth := Tier(5, 60)
  const Auth := Tier(60, 60)
  const Convo := Tier(20, 60)

  /** One recorded request: its time in milliseconds and a random tag. */
  datatype Entry = Entry(timestamp: int, id: string)

  /** What a sliding-window check reports. */
  datatype Counted = Counted(success: bool, count: int, reset: int)

  datatype RateLimitResult = RateLimitResult(
    success: bool, limit: int, remaining: int, reset: int, retryAfter: Option<int>)

  // ---------------------------------------------------------------- the in-memory window

  /** The entries strictly newer than the window start. */
  function InWindow(entries: seq<Entry>, windowStart: int): (r: seq<Entry>)
    ensures |r| <= |entries|
    ensures forall e :: e in r <==> e in entries && e.timestamp > windowStart
  {
    if |entries| == 0 then []
    else (if entries[0].timestamp > windowStart then [entries[0]] else []) + InWindow(entries[1..], windowStart)
  }

  function EntriesOf(store: map<string, seq<Entry>>, key: string): seq<Entry>
  {
    if key in store then store[key] else []
  }

  /** The sweep: keys left with no entry in the window go, the others keep only those entries. */
  function Swept(store: map<string, seq<Entry>>, windowStart: int): map<string, seq<Entry>>
  {
    map k | k in store && |InWindow(store[k], windowStart)| > 0 :: InWindow(store[k], windowStart)
  }

  /** The store after one check of `key` at `now`, before any sweep. */
  function Recorded(store: map<string, seq<Entry>>, key: string, windowSeconds: int, now: int, id: string)
    : map<string, seq<Entry>>
  {
    store[key := InWindow(EntriesOf(store, key), now - windowSeconds * 1000) + [Entry(now, id)]]
  }

  /** The store after one check, swept when the random draw asks for it. */
  function AfterCheck(store: map<string, seq<Entry>>, key: string, windowSeconds: int, now: int, id: string, sweep: bool)
    : map<string, seq<Entry>>
  {
    var recorded := Recorded(store, key, windowSeconds, now, id);
    if sweep then Swept(recorded, now - windowSeconds * 1000) else recorded
  }

  /** The verdict of one check: the in-window entries plus this request, against the limit. */
  function MemoryVerdict(store: map<string, seq<Entry>>, key: string, limit: int, windowSeconds: int, now: int): (c: Counted)
    ensures c.count == |InWindow(EntriesOf(store, key), now - windowSeconds * 1000)| + 1
    ensures c.success <==> c.count <= limit
    ensures c.reset == now + windowSeconds * 1000
  {
    var count := |InWindow(EntriesOf(store, key), now - windowSeconds * 1000)| + 1;
    Counted(count <= limit, count, now + windowSeconds * 1000)
  }

  /** The module-level map of the in-memory limiter. */
  class MemoryStore {
    var entries: map<string, seq<Entry>>

    constructor ()
      ensures entries == map[]
    {
      entries := map[];
    }

    /**
     * One sliding-window check. A denied request is stored like an admitted
     * one. `now` is the clock, `id` the random tag and `sweep` the outcome
     * of the one-in-a-hundred draw.
     */
    method SlidingWindow(key: string, limit: int, windowSeconds: int, now: int, id: string, sweep: bool)
      returns (c: Counted)
      modifies this
      ensures c == MemoryVerdict(old(entries), key, limit, windowSeconds, now)
      ensures entries == AfterCheck(old(entries), key, windowSeconds, now, id, sweep)
    {
      ghost var before := entries;
      var window := windowSeconds * 1000;
      var windowStart := now - window;
      var current := EntriesOf(entries, key);
      current := InWindow(current, windowStart);
      current := current + [Entry(now, id)];
      var count := |current|;
      c := Counted(count <= limit, count, now + window);
      assert c == MemoryVerdict(before, key, limit, windowSeconds, now);
      entries := entries[key := current];
      ghost var recorded := Recorded(before, key, windowSeconds, now, id);
      assert entries == recorded;
      if sweep {
        Sweep(windowStart);
      }
    }

    /** The clean-up loop over every stored key. */
    method Sweep(windowStart: int)
      modifies this
      ensures entries == Swept(old(entries), windowStart)
    {
      ghost var start := entries;
      var pending := entries.Keys;
      while pending != {}
        invariant pending <= start.Keys && entries.Keys <= start.Keys
        invariant forall k :: k in pending ==> k in entries && entries[k] == start[k]
        invariant forall k :: k in start && k !in pending ==> SweptKey(start, entries, k, windowStart)
        decreases |pending|
      {
        var k :| k in pending;
        var valid := InWindow(entries[k], windowStart);
        if |valid| == 0 {
          entries := entries - {k};
        } else {
          entries := entries[k := valid];
        }
        pending := pending - {k};
      }
      SweptByKeys(start, entries, windowStart);
    }
  }

  /** Key `k` of `after` is what the sweep makes of key `k` of `before`. */
  predicate SweptKey(before: map<string, seq<Entry>>, after: map<string, seq<Entry>>, k: string, windowStart: int)
    requires k in before
  {
    var live := InWindow(before[k], windowStart);
    (k in after <==> |live| > 0) && (k in after ==> after[k] == live)
  }

  lemma SweptByKeys(before: map<string, seq<Entry>>, after: map<string, seq<Entry>>, windowStart: int)
    requires after.Keys <= before.Keys
    requires forall k :: k in before ==> SweptKey(before, after, k, windowStart)
    ensures after == Swept(before, windowStart)
  {
    var s := Swept(before, windowStart);
    assert after.Keys == s.Keys;
  }

  /** Without a sweep no other key changes; with one, other keys only lose stale entries. */
  lemma OtherKeysUntouched(store: map<string, seq<Entry>>, key: string, windowSeconds: int, now: int, id: string, sweep: bool, other: string)
    requires other != key
    ensures var after := AfterCheck(store, key, windowSeconds, now, id, sweep);
      !sweep ==> (other in after <==> other in store) && (other in store ==> after[other] == store[other])
    ensures var after := AfterCheck(store, key, windowSeconds, now, id, sweep);
      sweep ==> (other in after <==> other in store && |InWindow(store[other], now - windowSeconds * 1000)| > 0)
  {
  }

  /** A denied request still counts: the stored list grows by one either way. */
  lemma DeniedRequestIsStored(store: map<string, seq<Entry>>, key: string, limit: int, windowSeconds: int, now: int, id: string)
    requires windowSeconds > 0
    ensures var after := AfterCheck(store, key, windowSeconds, now, id, false);
      key in after && |after[key]| == MemoryVerdict(store, key, limit, windowSeconds, now).count
      && Entry(now, id) in after[key]
  {
  }

  // ---------------------------------------------------------------- scenarios

  /** Entries all newer than the window start are all counted. */
  lemma {:induction false} AllInWindow(entries: seq<Entry>, windowStart: int)
    requires forall i :: 0 <= i < |entries| ==> entries[i].timestamp > windowStart
    ensures InWindow(entries, windowStart) == entries
  {
    if |entries| > 0 {
      AllInWindow(entries[1..], windowStart);
      assert entries == [entries[0]] + entries[1..];
    }
  }

  /** Entries all at or before the window start are all dropped. */
  lemma {:induction false} NoneInWindow(entries: seq<Entry>, windowStart: int)
    requires forall i :: 0 <= i < |entries| ==> entries[i].timestamp <= windowStart
    ensures InWindow(entries, windowStart) == []
  {
    if |entries| > 0 {
      NoneInWindow(entries[1..], windowStart);
    }
  }

  /** The stored list after a run of checks of one key at the given instants. */
  function History(times: seq<int>, windowSeconds: int): seq<Entry>
  {
    if |times| == 0 then []
    else InWindow(History(times[..|times| - 1], windowSeconds), times[|times| - 1] - windowSeconds * 1000)
         + [Entry(times[|times| - 1], "")]
  }

  /** Requests that all fall within one window are all kept. */
  lemma {:induction false} HistoryWithinWindow(times: seq<int>, windowSeconds: int)
    requires |times| > 0
    requires forall i, j :: 0 <= i <= j < |times| ==> times[i] <= times[j] < times[i] + windowSeconds * 1000
    ensures |History(times, windowSeconds)| == |times|
    ensures forall e :: e in History(times, windowSeconds) ==> e.timestamp >= times[0]
  {
    var n := |times|;
    if n > 1 {
      var init := times[..n - 1];
      var ws := times[n - 1] - windowSeconds * 1000;
      assert init[0] == times[0];
      assert times[0] > ws;
      HistoryWithinWindow(init, windowSeconds);
      var h := History(init, windowSeconds);
      forall i | 0 <= i < |h|
        ensures h[i].timestamp > ws
      {
        assert h[i] in h;
      }
      AllInWindow(h, ws);
      assert History(times, windowSeconds) == h + [Entry(times[n - 1], "")];
    }
  }

  /**
   * With the unauthenticated tier (5 per 60 s), five requests inside one
   * window pass and the sixth is refused.
   */
  lemma SixthRequestRefused(times: seq<int>)
    requires |times| == 6
    requires forall i, j :: 0 <= i <= j < 6 ==> times[i] <= times[j] < times[i] + 60000
    ensures forall k :: 0 <= k < 5 ==>
      MemoryVerdict(map["k" := History(times[..k], 60)], "k", 5, 60, times[k]).success
    ensures !MemoryVerdict(map["k" := History(times[..5], 60)], "k", 5, 60, times[5]).success
  {
    forall k | 0 <= k < 6
      ensures MemoryVerdict(map["k" := History(times[..k], 60)], "k", 5, 60, times[k]).count == k + 1
    {
      CountInsideWindow(times, k);
    }
  }

  /** Inside one window the request at position `k` is the `k + 1`-th counted. */
  lemma CountInsideWindow(times: seq<int>, k: nat)
    requires k < |times|
    requires forall i, j :: 0 <= i <= j < |times| ==> times[i] <= times[j] < times[i] + 60000
    ensures MemoryVerdict(map["k" := History(times[..k], 60)], "k", 5, 60, times[k]).count == k + 1
  {
    if k > 0 {
      var prefix := times[..k];
      assert prefix[0] == times[0];
      HistoryKeptAt(prefix, times[k] - 60000);
    }
  }

  /** A history whose requests all follow `start` keeps every request in the window after `start`. */
  lemma HistoryKeptAt(prefix: seq<int>, start: int)
    requires |prefix| > 0 && prefix[0] > start
    requires forall i, j :: 0 <= i <= j < |prefix| ==> prefix[i] <= prefix[j] < prefix[i] + 60000
    ensures |InWindow(History(prefix, 60), start)| == |prefix|
  {
    HistoryWithinWindow(prefix, 60);
    var h := History(prefix, 60);
    forall i | 0 <= i < |h|
      ensures h[i].timestamp > start
    {
      assert h[i] in h;
    }
    AllInWindow(h, start);
  }

  /** After a full quiet window the key's count starts again at one. */
  lemma QuietWindowResets(store: map<string, seq<Entry>>, key: string, limit: int, windowSeconds: int, now: int)
    requires limit >= 1
    requires forall e :: e in EntriesOf(store, key) ==> e.timestamp <= now - windowSeconds * 1000
    ensures MemoryVerdict(store, key, limit, windowSeconds, now).count == 1
    ensures MemoryVerdict(store, key, limit, windowSeconds, now).success
  {
    var es := EntriesOf(store, key);
    forall i | 0 <= i < |es|
      ensures es[i].timestamp <= now - windowSeconds * 1000
    {
      assert es[i] in es;
    }
    NoneInWindow(es, now - windowSeconds * 1000);
  }

  // ---------------------------------------------------------------- the Redis variant

  /** ZREMRANGEBYSCORE key 0 windowStart: scores in [0, windowStart] go. */
  function RedisRemove(entries: seq<Entry>, windowStart: int): seq<Entry>
  {
    Sorting.Filter(entries, (e: Entry) => !(0 <= e.timestamp <= windowStart))
  }

  /** The Redis transaction's verdict: the cardinality after removal, plus this request. */
  function RedisVerdict(entries: seq<Entry>, limit: int, windowSeconds: int, now: int): Counted
  {
    var count := |RedisRemove(entries, now - windowSeconds * 1000)| + 1;
    Counted(count <= limit, count, now + windowSeconds * 1000)
  }

  lemma {:induction false} RemoveMatchesWindow(entries: seq<Entry>, windowStart: int)
    requires forall i :: 0 <= i < |entries| ==> entries[i].timestamp >= 0
    ensures RedisRemove(entries, windowStart) == InWindow(entries, windowStart)
  {
    if |entries| > 0 {
      RemoveMatchesWindow(entries[1..], windowStart);
    }
  }

  /** For non-negative timestamps both backends give the same verdict. */
  lemma RedisAgreesWithMemory(store: map<string, seq<Entry>>, key: string, limit: int, windowSeconds: int, now: int)
    requires forall e :: e in EntriesOf(store, key) ==> e.timestamp >= 0
    ensures RedisVerdict(EntriesOf(store, key), limit, windowSeconds, now)
         == MemoryVerdict(store, key, limit, windowSeconds, now)
  {
    var es := EntriesOf(store, key);
    forall i | 0 <= i < |es|
      ensures es[i].timestamp >= 0
    {
      assert es[i] in es;
    }
    RemoveMatchesWindow(es, now - windowSeconds * 1000);
  }

  // ---------------------------------------------------------------- checkRateLimit

  /** `rate_limit:<identifier>:<max>:<window>`. */
  function RateLimitKey(identifier: string, tier: Tier): string
  {
    "rate_limit:" + identifier + ":" + Text.IntToString(tier.max) + ":" + Text.IntToString(tier.window)
  }

  /** If two strings split around a colon agree, the longer tail contains the other's colon. */
  lemma ShorterTailHasColon(x: string, y: string, x2: string, y2: string)
    requires x + ":" + y == x2 + ":" + y2 && |y| < |y2|
    ensures ':' in y2
  {
    var s := x + ":" + y;
    assert y2[|y2| - |y| - 1] == s[|s| - |y| - 1];
  }

  /** Two decompositions around a last colon agree. */
  lemma SplitAtLastColon(x: string, y: string, x2: string, y2: string)
    requires x + ":" + y == x2 + ":" + y2
    requires ':' !in y && ':' !in y2
    ensures x == x2 && y == y2
  {
    var s := x + ":" + y;
    if |y| < |y2| {
      ShorterTailHasColon(x, y, x2, y2);
      assert false;
    } else if |y2| < |y| {
      ShorterTailHasColon(x2, y2, x, y);
      assert false;
    }
    assert y == s[|s| - |y|..] == y2;
    assert x == s[..|x|] == x2;
  }

  lemma IntToStringHasNoColon(n: int)
    ensures ':' !in Text.IntToString(n)
  {
  }

  /**
   * The key determines the identifier and the tier even when the identifier
   * holds colons, because the two numbers at the end never do.
   */
  lemma RateLimitKeyInjective(id1: string, t1: Tier, id2: string, t2: Tier)
    requires RateLimitKey(id1, t1) == RateLimitKey(id2, t2)
    ensures id1 == id2 && t1 == t2
  {
    var m1, w1 := Text.IntToString(t1.max), Text.IntToString(t1.window);
    var m2, w2 := Text.IntToString(t2.max), Text.IntToString(t2.window);
    IntToStringHasNoColon(t1.max);
    IntToStringHasNoColon(t1.window);
    IntToStringHasNoColon(t2.max);
    IntToStringHasNoColon(t2.window);
    SplitAtLastColon("rate_limit:" + id1 + ":" + m1, w1, "rate_limit:" + id2 + ":" + m2, w2);
    SplitAtLastColon("rate_limit:" + id1, m1, "rate_limit:" + id2, m2);
    assert id1 == ("rate_limit:" + id1)[11..];
    assert id2 == ("rate_limit:" + id2)[11..];
    Text.IntToStringRoundTrip(t1.max);
    Text.IntToStringRoundTrip(t2.max);
    Text.IntToStringRoundTrip(t1.window);
    Text.IntToStringRoundTrip(t2.window);
  }

  /**
   * The caller's view of a backend verdict; `nowAfter` is the clock read when
   * the retry delay is computed.
   */
  function ShapeResult(tier: Tier, c: Counted, nowAfter: int): (r: RateLimitResult)
    ensures r.success == c.success && r.limit == tier.max && r.reset == c.reset
    ensures r.remaining == JsMath.NonNegative(tier.max - c.count)
    ensures r.retryAfter.Some? <==> !c.success
    ensures !c.success ==> r.retryAfter.value == JsMath.CeilDiv(c.reset - nowAfter, 1000)
  {
    RateLimitResult(c.success, tier.max, JsMath.NonNegative(tier.max - c.count), c.reset,
                    if c.success then None else Some(JsMath.CeilDiv(c.reset - nowAfter, 1000)))
  }

  /** Any failure lets the request through with one slot used. */
  function FailOpen(tier: Tier, nowAfter: int): (r: RateLimitResult)
    ensures r.success && r.limit == tier.max && r.remaining == tier.max - 1 && r.retryAfter.None?
    ensures r.reset == nowAfter + tier.window * 1000
  {
    RateLimitResult(true, tier.max, tier.max - 1, nowAfter + tier.window * 1000, None)
  }

  /**
   * What the Redis side does for this call: not configured, a transaction run
   * on the key's sorted-set entries as they stood, or an exception.
   */
  datatype RedisOutcome = NotConfigured | RedisCounted(entries: seq<Entry>) | RedisFailed

  /** `checkRateLimit`: Redis when configured, the memory store otherwise, open on failure. */
  method CheckRateLimit(store: MemoryStore, identifier: string, tier: Tier, redis: RedisOutcome,
                        now: int, id: string, sweep: bool, nowAfter: int)
    returns (r: RateLimitResult)
    modifies store
    ensures redis.NotConfigured? ==>
      var key := RateLimitKey(identifier, tier);
      r == ShapeResult(tier, MemoryVerdict(old(store.entries), key, tier.max, tier.window, now), nowAfter)
      && store.entries == AfterCheck(old(store.entries), key, tier.window, now, id, sweep)
    ensures redis.RedisCounted? ==>
      r == ShapeResult(tier, RedisVerdict(redis.entries, tier.max, tier.window, now), nowAfter)
      && store.entries == old(store.entries)
    ensures redis.RedisFailed? ==> r == FailOpen(tier, nowAfter) && store.entries == old(store.entries)
  {
    var key := RateLimitKey(identifier, tier);
    match redis {
      case NotConfigured =>
        var c := store.SlidingWindow(key, tier.max, tier.window, now, id, sweep);
        r := ShapeResult(tier, c, nowAfter);
      case RedisCounted(entries) =>
        r := ShapeResult(tier, RedisVerdict(entries, tier.max, tier.window, now), nowAfter);
      case RedisFailed =>
        r := FailOpen(tier, nowAfter);
    }
  }

  /** A refused request is told to wait until the window it was counted in ends. */
  lemma RetryCoversReset(tier: Tier, c: Counted, nowAfter: int)
    requires !c.success && c.reset > nowAfter
    ensures var r := ShapeResult(tier, c, nowAfter);
      r.retryAfter.value >= 1 && nowAfter + r.retryAfter.value * 1000 >= c.reset
  {
  }

  // ---------------------------------------------------------------- tiers

  predicate IsConversationPath(pathname: string)
  {
    Text.Includes(pathname, "/api/chat") || Text.Includes(pathname, "/api/conversation")
    || Text.Includes(pathname, "/api/messages")
  }

  function GetRateLimitTier(pathname: string, isAuthenticated: bool): (t: Tier)
    ensures !isAuthenticated ==> t == Unauth
    ensures isAuthenticated && IsConversationPath(pathname) ==> t == Convo
    ensures isAuthenticated && !IsConversationPath(pathname) ==> t == Auth
  {
    if IsConversationPath(pathname) then (if isAuthenticated then Convo else Unauth)
    else if isAuthenticated then Auth else Unauth
  }

  /** Signing in never lowers the allowance. */
  lemma AuthenticationNeverLowersLimit(pathname: string)
    ensures GetRateLimitTier(pathname, false).max <= GetRateLimitTier(pathname, true).max
  {
  }
}
