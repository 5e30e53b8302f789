// The caching front of the knowledge-base retriever: a result cache keyed by
// the request, entries served while fresh and stored only when non-empty, the
// stale entry served when the backend fails or is too slow, its clean-up, the
// batch and preset searches and the health classification.
module OptimizedRetrieval {
  import opened Wrappers
  import Text
  import KB = KnowledgeBaseRetrieval

  type Doc = KB.RelevantDocument

  /** The fields of a request that select a cache entry. */
  datatype CacheKey = CacheKey(industry: string, query: string, topK: nat, minScore: real, includeAllIndustries: bool)

  datatype CacheEntry = CacheEntry(results: seq<Doc>, timestamp: int, ttl: int)

  datatype EmbeddingEntry = EmbeddingEntry(embedding: seq<real>, timestamp: int)

  /** Caller options; `None` takes the default. */
  datatype OptimizedOptions = OptimizedOptions(topK: Option<nat>, minScore: Option<real>, includeAllIndustries: Option<bool>,
                                               useCache: Option<bool>, timeout: Option<nat>)

  datatype CacheStats = CacheStats(embeddingCacheSize: nat, resultCacheSize: nat)

  datatype HealthStatus = Healthy | Degraded | Unhealthy

  datatype HealthReport = HealthReport(status: HealthStatus, latency: int, error: Option<string>)

  /** One request of a batch. */
  datatype BatchQuery = BatchQuery(industry: string, query: string, options: OptimizedOptions)

  const EmbeddingCacheTtl: int := 3600000
  const ResultCacheTtl: int := 300000
  const DefaultTimeout: nat := 2000
  const TimeoutMessage: string := "Query timeout"
  const NoOptions := OptimizedOptions(None, None, None, None, None)
  const FastOptions := OptimizedOptions(Some(3), Some(0.4), None, Some(true), Some(1000))
  const ComprehensiveOptions := OptimizedOptions(Some(8), Some(0.2), Some(true), Some(true), Some(5000))

  function OrNat(v: Option<nat>, d: nat): nat { if v.Some? then v.value else d }
  function OrReal(v: Option<real>, d: real): real { if v.Some? then v.value else d }
  function OrBool(v: Option<bool>, d: bool): bool { if v.Some? then v.value else d }

  /** `{ topK: 3, minScore: 0.3, useCache: true, timeout: 2000, ...options }`. */
  function WithDefaults(o: OptimizedOptions): (r: OptimizedOptions)
    ensures r.topK == Some(OrNat(o.topK, 3)) && r.minScore == Some(OrReal(o.minScore, 0.3))
    ensures r.useCache == Some(OrBool(o.useCache, true)) && r.timeout == Some(OrNat(o.timeout, DefaultTimeout))
    ensures r.includeAllIndustries == o.includeAllIndustries
  {
    OptimizedOptions(Some(OrNat(o.topK, 3)), Some(OrReal(o.minScore, 0.3)), o.includeAllIndustries,
                     Some(OrBool(o.useCache, true)), Some(OrNat(o.timeout, DefaultTimeout)))
  }

  /** `generateCacheKey`, with its own defaults 3 / 0.3 / false. */
  function KeyOf(industry: string, query: string, o: OptimizedOptions): CacheKey
  {
    CacheKey(industry, query, OrNat(o.topK, 3), OrReal(o.minScore, 0.3), OrBool(o.includeAllIndustries, false))
  }

  /** The key of a request is fixed by its industry, query and effective options. */
  lemma KeyDefaults(industry: string, query: string)
    ensures KeyOf(industry, query, WithDefaults(NoOptions)) == CacheKey(industry, query, 3, 0.3, false)
    ensures KeyOf(industry, query, WithDefaults(FastOptions)) == CacheKey(industry, query, 3, 0.4, false)
    ensures KeyOf(industry, query, WithDefaults(ComprehensiveOptions)) == CacheKey(industry, query, 8, 0.2, true)
  {
  }

  /** Two requests share a cache entry only when their industry, query and effective options agree. */
  lemma KeyOfInjective(i1: string, q1: string, o1: OptimizedOptions, i2: string, q2: string, o2: OptimizedOptions)
    requires KeyOf(i1, q1, WithDefaults(o1)) == KeyOf(i2, q2, WithDefaults(o2))
    ensures i1 == i2 && q1 == q2
    ensures OrNat(o1.topK, 3) == OrNat(o2.topK, 3) && OrReal(o1.minScore, 0.3) == OrReal(o2.minScore, 0.3)
    ensures OrBool(o1.includeAllIndustries, false) == OrBool(o2.includeAllIndustries, false)
  {
  }

  /**
   * The key as written, the fields joined with colons; `show` is JavaScript's
   * rendering of the score threshold.
   */
  function KeyText(k: CacheKey, show: real -> string): string
  {
    k.industry + ":" + k.query + ":" + Text.IntToString(k.topK) + ":" + show(k.minScore) + ":"
    + (if k.includeAllIndustries then "true" else "false")
  }

  /** A colon in the industry or the query lets two different requests share one entry. */
  lemma KeyTextCollides(show: real -> string)
    ensures CacheKey("retail:food", "waste", 3, 0.3, false) != CacheKey("retail", "food:waste", 3, 0.3, false)
    ensures KeyText(CacheKey("retail:food", "waste", 3, 0.3, false), show)
            == KeyText(CacheKey("retail", "food:waste", 3, 0.3, false), show)
  {
    assert "retail:food" + ":" + "waste" == "retail" + ":" + "food:waste";
  }

  /** The options passed on to the base retriever. */
  function BaseOptions(o: OptimizedOptions): KB.RetrievalOptions
  {
    KB.RetrievalOptions(o.topK, o.minScore, o.includeAllIndustries)
  }

  /** An entry is served while younger than its ttl. */
  predicate Live(e: CacheEntry, now: int) { now - e.timestamp < e.ttl }

  /** The cache check before the fetch: only with `useCache`, only a live entry. */
  function CacheHit(cache: map<CacheKey, CacheEntry>, key: CacheKey, useCache: bool, now: int): (r: Option<seq<Doc>>)
    ensures r.Some? <==> useCache && key in cache && Live(cache[key], now)
    ensures r.Some? ==> r.value == cache[key].results
  {
    if useCache && key in cache && Live(cache[key], now) then Some(cache[key].results) else None
  }

  /**
   * The base retrieval raced against the timeout: `elapsed` is how long the
   * base retriever would take; it loses when that reaches the limit.
   */
  function Fetch(industry: string, query: string, opts: OptimizedOptions, elapsed: nat,
                 embeds: string -> bool, search: (string, string, nat) -> KB.QueryOutcome)
    : (r: Result<seq<Doc>, string>)
    ensures elapsed >= OrNat(opts.timeout, DefaultTimeout) ==> r == Failure(TimeoutMessage)
    ensures elapsed < OrNat(opts.timeout, DefaultTimeout) ==> r == KB.GetRelevantDocs(industry, query, BaseOptions(opts), embeds, search)
  {
    if elapsed >= OrNat(opts.timeout, DefaultTimeout) then Failure(TimeoutMessage)
    else KB.GetRelevantDocs(industry, query, BaseOptions(opts), embeds, search)
  }

  /** What a completed fetch returns: its documents, else the key's entry even if expired, else nothing. */
  function CompletedResults(cache: map<CacheKey, CacheEntry>, key: CacheKey, fetched: Result<seq<Doc>, string>): seq<Doc>
  {
    if fetched.Success? then fetched.value else if key in cache then cache[key].results else []
  }

  /** What a completed fetch stores: a non-empty success, with `useCache`, stamped `doneAt`. */
  function CompletedCache(cache: map<CacheKey, CacheEntry>, key: CacheKey, useCache: bool,
                          fetched: Result<seq<Doc>, string>, doneAt: int): map<CacheKey, CacheEntry>
  {
    if useCache && fetched.Success? && |fetched.value| > 0 then cache[key := CacheEntry(fetched.value, doneAt, ResultCacheTtl)]
    else cache
  }

  /** The documents `getRelevantDocs` returns for a cache `cache` at time `now`. */
  function Answer(cache: map<CacheKey, CacheEntry>, industry: string, query: string, options: OptimizedOptions, now: int,
                  elapsed: nat, embeds: string -> bool, search: (string, string, nat) -> KB.QueryOutcome): seq<Doc>
  {
    var opts := WithDefaults(options);
    var key := KeyOf(industry, query, opts);
    var hit := CacheHit(cache, key, OrBool(opts.useCache, true), now);
    if hit.Some? then hit.value else CompletedResults(cache, key, Fetch(industry, query, opts, elapsed, embeds, search))
  }

  /** The cache after that call; the fetch completes at `now + elapsed`. */
  function CacheAfter(cache: map<CacheKey, CacheEntry>, industry: string, query: string, options: OptimizedOptions, now: int,
                      elapsed: nat, embeds: string -> bool, search: (string, string, nat) -> KB.QueryOutcome)
    : map<CacheKey, CacheEntry>
  {
    var opts := WithDefaults(options);
    var key := KeyOf(industry, query, opts);
    var hit := CacheHit(cache, key, OrBool(opts.useCache, true), now);
    if hit.Some? then cache
    else CompletedCache(cache, key, OrBool(opts.useCache, true), Fetch(industry, query, opts, elapsed, embeds, search), now + elapsed)
  }

  /** Without a live entry, the answer and the new cache are those of the completed fetch. */
  lemma MissAnswer(cache: map<CacheKey, CacheEntry>, industry: string, query: string, options: OptimizedOptions, now: int,
                   elapsed: nat, embeds: string -> bool, search: (string, string, nat) -> KB.QueryOutcome,
                   fetched: Result<seq<Doc>, string>)
    requires var opts := WithDefaults(options);
      CacheHit(cache, KeyOf(industry, query, opts), OrBool(opts.useCache, true), now).None?
      && fetched == Fetch(industry, query, opts, elapsed, embeds, search)
    ensures var opts := WithDefaults(options);
      var key := KeyOf(industry, query, opts);
      Answer(cache, industry, query, options, now, elapsed, embeds, search) == CompletedResults(cache, key, fetched)
      && CacheAfter(cache, industry, query, options, now, elapsed, embeds, search)
         == CompletedCache(cache, key, OrBool(opts.useCache, true), fetched, now + elapsed)
  {
  }

  /** A fresh entry is served as is: the backend is not consulted and nothing is stored. */
  lemma FreshEntryServed(cache: map<CacheKey, CacheEntry>, industry: string, query: string, options: OptimizedOptions, now: int,
                         elapsed: nat, embeds: string -> bool, search: (string, string, nat) -> KB.QueryOutcome)
    requires var key := KeyOf(industry, query, WithDefaults(options));
      OrBool(options.useCache, true) && key in cache && Live(cache[key], now)
    ensures Answer(cache, industry, query, options, now, elapsed, embeds, search)
            == cache[KeyOf(industry, query, WithDefaults(options))].results
    ensures CacheAfter(cache, industry, query, options, now, elapsed, embeds, search) == cache
  {
  }

  /**
   * The cache changes only by storing a non-empty successful fetch under the
   * request's key, with the five-minute ttl, and only with `useCache`.
   */
  lemma StoresOnlyNonEmptySuccess(cache: map<CacheKey, CacheEntry>, industry: string, query: string, options: OptimizedOptions,
                                  now: int, elapsed: nat, embeds: string -> bool, search: (string, string, nat) -> KB.QueryOutcome)
    ensures var after := CacheAfter(cache, industry, query, options, now, elapsed, embeds, search);
      var opts := WithDefaults(options);
      var key := KeyOf(industry, query, opts);
      var fetched := Fetch(industry, query, opts, elapsed, embeds, search);
      after == cache
      || (OrBool(options.useCache, true) && fetched.Success? && |fetched.value| > 0
          && after == cache[key := CacheEntry(fetched.value, now + elapsed, ResultCacheTtl)]
          && Answer(cache, industry, query, options, now, elapsed, embeds, search) == fetched.value)
  {
  }

  /**
   * A failed or timed-out fetch serves the key's entry, expired or not and
   * whatever `useCache` says, and otherwise nothing; nothing is stored.
   */
  lemma FailureServesStale(cache: map<CacheKey, CacheEntry>, industry: string, query: string, options: OptimizedOptions,
                           now: int, elapsed: nat, embeds: string -> bool, search: (string, string, nat) -> KB.QueryOutcome)
    requires var opts := WithDefaults(options);
      var key := KeyOf(industry, query, opts);
      CacheHit(cache, key, OrBool(options.useCache, true), now).None?
      && Fetch(industry, query, opts, elapsed, embeds, search).Failure?
    ensures var key := KeyOf(industry, query, WithDefaults(options));
      Answer(cache, industry, query, options, now, elapsed, embeds, search) == (if key in cache then cache[key].results else [])
    ensures CacheAfter(cache, industry, query, options, now, elapsed, embeds, search) == cache
  {
  }

  /** Without `useCache` the cache is never written. */
  lemma NoCacheNoStore(cache: map<CacheKey, CacheEntry>, industry: string, query: string, options: OptimizedOptions,
                       now: int, elapsed: nat, embeds: string -> bool, search: (string, string, nat) -> KB.QueryOutcome)
    requires options.useCache == Some(false)
    ensures CacheAfter(cache, industry, query, options, now, elapsed, embeds, search) == cache
  {
  }

  /** `cleanupCache` on the result cache: drops the entries older than their ttl. */
  function Cleaned(cache: map<CacheKey, CacheEntry>, now: int): (r: map<CacheKey, CacheEntry>)
    ensures forall k :: k in r <==> k in cache && now - cache[k].timestamp <= cache[k].ttl
    ensures forall k :: k in r ==> r[k] == cache[k]
  {
    map k | k in cache && now - cache[k].timestamp <= cache[k].ttl :: cache[k]
  }

  /** `cleanupCache` on the embedding cache: drops the entries older than an hour. */
  function CleanedEmbeddings(cache: map<string, EmbeddingEntry>, now: int): (r: map<string, EmbeddingEntry>)
    ensures forall k :: k in r <==> k in cache && now - cache[k].timestamp <= EmbeddingCacheTtl
    ensures forall k :: k in r ==> r[k] == cache[k]
  {
    map k | k in cache && now - cache[k].timestamp <= EmbeddingCacheTtl :: cache[k]
  }

  /**
   * Clean-up never changes what a lookup at the same instant finds; an entry
   * exactly at its ttl is kept although it is no longer served.
   */
  lemma CleanupKeepsLookups(cache: map<CacheKey, CacheEntry>, now: int, key: CacheKey, useCache: bool)
    ensures CacheHit(Cleaned(cache, now), key, useCache, now) == CacheHit(cache, key, useCache, now)
    ensures key in cache && now - cache[key].timestamp == cache[key].ttl ==>
              key in Cleaned(cache, now) && !Live(cache[key], now)
  {
  }

  /** The fixed query of `healthCheck`. */
  const HealthIndustry: string := "agriculture"
  const HealthQuery: string := "AI crop monitoring"

  /**
   * How long a cached search takes: nothing on a live hit; otherwise the
   * base retrieval's time, cut off by the race at the timeout.
   */
  function SearchDuration(cache: map<CacheKey, CacheEntry>, industry: string, query: string, options: OptimizedOptions,
                          now: int, elapsed: nat): (d: nat)
    ensures d <= OrNat(WithDefaults(options).timeout, DefaultTimeout)
    ensures CacheHit(cache, KeyOf(industry, query, WithDefaults(options)), OrBool(WithDefaults(options).useCache, true), now).None?
            && elapsed >= OrNat(WithDefaults(options).timeout, DefaultTimeout)
            ==> d == OrNat(WithDefaults(options).timeout, DefaultTimeout)
  {
    var opts := WithDefaults(options);
    var timeout := OrNat(opts.timeout, DefaultTimeout);
    if CacheHit(cache, KeyOf(industry, query, opts), OrBool(opts.useCache, true), now).Some? then 0
    else if elapsed < timeout then elapsed else timeout
  }

  /**
   * A health check whose fast search misses the cache and loses the race to
   * its one-second timeout, with no stale entry to fall back on, is never
   * reported healthy: it finds no document.
   */
  lemma TimedOutHealthCheckNotHealthy(cache: map<CacheKey, CacheEntry>, startTime: int, elapsed: nat, overhead: nat,
                                      embeds: string -> bool, search: (string, string, nat) -> KB.QueryOutcome)
    requires KeyOf(HealthIndustry, HealthQuery, WithDefaults(FastOptions)) !in cache
    requires elapsed >= 1000
    ensures var h := Classify(SearchDuration(cache, HealthIndustry, HealthQuery, FastOptions, startTime, elapsed) + overhead,
                              |Answer(cache, HealthIndustry, HealthQuery, FastOptions, startTime, elapsed, embeds, search)|);
      h.status != Healthy && h.latency >= 1000
  {
    var opts := WithDefaults(FastOptions);
    assert OrNat(opts.timeout, DefaultTimeout) == 1000;
    assert Fetch(HealthIndustry, HealthQuery, opts, elapsed, embeds, search) == Failure(TimeoutMessage);
  }

  /** The three health states by latency and result count. */
  function Classify(latency: int, resultCount: nat): (h: HealthReport)
    ensures h.latency == latency
    ensures h.status == Unhealthy <==> latency > 2000
    ensures h.status == Degraded <==> latency <= 2000 && (latency > 1000 || resultCount == 0)
    ensures h.status == Healthy <==> latency <= 1000 && resultCount > 0
    ensures h.error.None? <==> h.status == Healthy
  {
    if latency > 2000 then HealthReport(Unhealthy, latency, Some("High latency detected"))
    else if latency > 1000 || resultCount == 0 then HealthReport(Degraded, latency, Some("Performance or quality issues"))
    else HealthReport(Healthy, latency, None)
  }

  /** The state of a batch after its first requests: the answers so far and the cache. */
  datatype BatchState = BatchState(results: seq<seq<Doc>>, cache: map<CacheKey, CacheEntry>)

  /** The cache key of one batch request. */
  function BatchKey(q: BatchQuery): CacheKey { KeyOf(q.industry, q.query, WithDefaults(q.options)) }

  /** Request `q`, at position `n` of its batch, after the state `prev`. */
  function BatchStep(initial: map<CacheKey, CacheEntry>, prev: BatchState, q: BatchQuery, n: nat, now: int,
                     elapsed: nat -> nat, embeds: string -> bool, search: (string, string, nat) -> KB.QueryOutcome)
    : (s: BatchState)
    ensures |s.results| == |prev.results| + 1 && s.results[..|prev.results|] == prev.results
    ensures var hit := CacheHit(initial, BatchKey(q), OrBool(q.options.useCache, true), now);
      hit.Some? ==> s.results[|prev.results|] == hit.value && s.cache == prev.cache
    ensures forall k :: k != BatchKey(q) ==> (k in s.cache <==> k in prev.cache) && (k in prev.cache ==> s.cache[k] == prev.cache[k])
  {
    var opts := WithDefaults(q.options);
    var key := KeyOf(q.industry, q.query, opts);
    var hit := CacheHit(initial, key, OrBool(opts.useCache, true), now);
    if hit.Some? then BatchState(prev.results + [hit.value], prev.cache)
    else
      var fetched := Fetch(q.industry, q.query, opts, elapsed(n), embeds, search);
      BatchState(prev.results + [CompletedResults(prev.cache, key, fetched)],
                 CompletedCache(prev.cache, key, OrBool(opts.useCache, true), fetched, now + elapsed(n)))
  }

  /**
   * A batch: every request checks the cache as it was when the batch started
   * (all checks run before any fetch completes); the fetches then complete in
   * input order, each serving and storing against the cache as it is by then.
   * `elapsed(i)` is the time the base retriever takes for request `i`.
   */
  function BatchRun(initial: map<CacheKey, CacheEntry>, qs: seq<BatchQuery>, now: int, elapsed: nat -> nat,
                    embeds: string -> bool, search: (string, string, nat) -> KB.QueryOutcome): (s: BatchState)
    ensures |s.results| == |qs|
  {
    if |qs| == 0 then BatchState([], initial)
    else
      var n := |qs| - 1;
      BatchStep(initial, BatchRun(initial, qs[..n], now, elapsed, embeds, search), qs[n], n, now, elapsed, embeds, search)
  }

  /** One answer per request, in input order; a request with a fresh entry at the start is answered from it. */
  lemma {:induction false} BatchAnswersFromStart(initial: map<CacheKey, CacheEntry>, qs: seq<BatchQuery>, now: int,
                                                 elapsed: nat -> nat, embeds: string -> bool,
                                                 search: (string, string, nat) -> KB.QueryOutcome)
    ensures var s := BatchRun(initial, qs, now, elapsed, embeds, search);
      forall i :: 0 <= i < |qs| && CacheHit(initial, BatchKey(qs[i]), OrBool(qs[i].options.useCache, true), now).Some? ==>
        s.results[i] == initial[BatchKey(qs[i])].results
  {
    if |qs| > 0 {
      var n := |qs| - 1;
      BatchAnswersFromStart(initial, qs[..n], now, elapsed, embeds, search);
      var prev := BatchRun(initial, qs[..n], now, elapsed, embeds, search);
      var s := BatchRun(initial, qs, now, elapsed, embeds, search);
      forall i | 0 <= i < |qs| && CacheHit(initial, BatchKey(qs[i]), OrBool(qs[i].options.useCache, true), now).Some?
        ensures s.results[i] == initial[BatchKey(qs[i])].results
      {
        if i < n {
          assert qs[..n][i] == qs[i];
          assert s.results[i] == s.results[..n][i];
        }
      }
    }
  }

  /** A batch changes the cache only under its own requests' keys. */
  lemma {:induction false} BatchTouchesOwnKeys(initial: map<CacheKey, CacheEntry>, qs: seq<BatchQuery>, now: int,
                                               elapsed: nat -> nat, embeds: string -> bool,
                                               search: (string, string, nat) -> KB.QueryOutcome, k: CacheKey)
    requires forall i :: 0 <= i < |qs| ==> BatchKey(qs[i]) != k
    ensures var s := BatchRun(initial, qs, now, elapsed, embeds, search);
      (k in s.cache <==> k in initial) && (k in initial ==> s.cache[k] == initial[k])
  {
    if |qs| > 0 {
      var n := |qs| - 1;
      assert forall i :: 0 <= i < n ==> qs[..n][i] == qs[i];
      BatchTouchesOwnKeys(initial, qs[..n], now, elapsed, embeds, search, k);
    }
  }

  class OptimizedKnowledgeBaseRetrieval {
    var resultCache: map<CacheKey, CacheEntry>
    var embeddingCache: map<string, EmbeddingEntry>

    constructor ()
      ensures resultCache == map[] && embeddingCache == map[]
    {
      resultCache := map[];
      embeddingCache := map[];
    }

    /** Nothing ever stores an embedding. */
    ghost predicate NoEmbeddings()
      reads this
    {
      embeddingCache == map[]
    }

    /**
     * `getRelevantDocs`: never fails. `now` is the clock at the call and
     * `elapsed` how long the base retriever takes.
     */
    method GetRelevantDocs(industry: string, query: string, options: OptimizedOptions, now: int, elapsed: nat,
                           embeds: string -> bool, search: (string, string, nat) -> KB.QueryOutcome)
      returns (r: seq<Doc>)
      modifies this
      ensures r == Answer(old(resultCache), industry, query, options, now, elapsed, embeds, search)
      ensures resultCache == CacheAfter(old(resultCache), industry, query, options, now, elapsed, embeds, search)
      ensures embeddingCache == old(embeddingCache)
    {
      var opts := WithDefaults(options);
      var key := KeyOf(industry, query, opts);
      var useCache := OrBool(opts.useCache, true);
      if useCache && key in resultCache && Live(resultCache[key], now) {
        return resultCache[key].results;
      }
      var fetched := Fetch(industry, query, opts, elapsed, embeds, search);
      MissAnswer(resultCache, industry, query, options, now, elapsed, embeds, search, fetched);
      r := Complete(key, useCache, fetched, now + elapsed);
    }

    /** The part after the fetch: store a non-empty success, or fall back to the stale entry. */
    method Complete(key: CacheKey, useCache: bool, fetched: Result<seq<Doc>, string>, doneAt: int) returns (r: seq<Doc>)
      modifies this
      ensures r == CompletedResults(old(resultCache), key, fetched)
      ensures resultCache == CompletedCache(old(resultCache), key, useCache, fetched, doneAt)
      ensures embeddingCache == old(embeddingCache)
    {
      if fetched.Success? {
        if useCache && |fetched.value| > 0 {
          resultCache := resultCache[key := CacheEntry(fetched.value, doneAt, ResultCacheTtl)];
        }
        return fetched.value;
      }
      if key in resultCache {
        return resultCache[key].results;
      }
      return [];
    }

    method FastSearch(industry: string, query: string, now: int, elapsed: nat,
                      embeds: string -> bool, search: (string, string, nat) -> KB.QueryOutcome)
      returns (r: seq<Doc>)
      modifies this
      ensures r == Answer(old(resultCache), industry, query, FastOptions, now, elapsed, embeds, search)
      ensures resultCache == CacheAfter(old(resultCache), industry, query, FastOptions, now, elapsed, embeds, search)
      ensures embeddingCache == old(embeddingCache)
    {
      r := GetRelevantDocs(industry, query, FastOptions, now, elapsed, embeds, search);
    }

    method ComprehensiveSearch(industry: string, query: string, now: int, elapsed: nat,
                               embeds: string -> bool, search: (string, string, nat) -> KB.QueryOutcome)
      returns (r: seq<Doc>)
      modifies this
      ensures r == Answer(old(resultCache), industry, query, ComprehensiveOptions, now, elapsed, embeds, search)
      ensures resultCache == CacheAfter(old(resultCache), industry, query, ComprehensiveOptions, now, elapsed, embeds, search)
      ensures embeddingCache == old(embeddingCache)
    {
      r := GetRelevantDocs(industry, query, ComprehensiveOptions, now, elapsed, embeds, search);
    }

    /** `batchSearch`; no request fails, so the settled-results path is never taken. */
    method BatchSearch(qs: seq<BatchQuery>, now: int, elapsed: nat -> nat,
                       embeds: string -> bool, search: (string, string, nat) -> KB.QueryOutcome)
      returns (results: seq<seq<Doc>>)
      modifies this
      ensures var s := BatchRun(old(resultCache), qs, now, elapsed, embeds, search);
        results == s.results && resultCache == s.cache
      ensures embeddingCache == old(embeddingCache)
    {
      var initial := resultCache;
      results := [];
      var i := 0;
      while i < |qs|
        invariant 0 <= i <= |qs|
        invariant embeddingCache == old(embeddingCache)
        invariant BatchRun(initial, qs[..i], now, elapsed, embeds, search) == BatchState(results, resultCache)
      {
        assert qs[..i + 1][..i] == qs[..i];
        var r := BatchOne(initial, results, qs[i], i, now, elapsed, embeds, search);
        results := results + [r];
        i := i + 1;
      }
      assert qs[..|qs|] == qs;
    }

    /** One request of a batch: checked against `initial`, completed against the current cache. */
    method BatchOne(initial: map<CacheKey, CacheEntry>, ghost prev: seq<seq<Doc>>, q: BatchQuery, n: nat, now: int,
                    elapsed: nat -> nat, embeds: string -> bool, search: (string, string, nat) -> KB.QueryOutcome)
      returns (r: seq<Doc>)
      modifies this
      ensures BatchStep(initial, BatchState(prev, old(resultCache)), q, n, now, elapsed, embeds, search)
              == BatchState(prev + [r], resultCache)
      ensures embeddingCache == old(embeddingCache)
    {
      var opts := WithDefaults(q.options);
      var key := KeyOf(q.industry, q.query, opts);
      var useCache := OrBool(opts.useCache, true);
      if useCache && key in initial && Live(initial[key], now) {
        r := initial[key].results;
      } else {
        var fetched := Fetch(q.industry, q.query, opts, elapsed(n), embeds, search);
        r := Complete(key, useCache, fetched, now + elapsed(n));
      }
    }

    /** The periodic clean-up of both caches at time `now`. */
    method CleanupCache(now: int)
      modifies this
      ensures embeddingCache == CleanedEmbeddings(old(embeddingCache), now)
      ensures resultCache == Cleaned(old(resultCache), now)
    {
      ghost var startEmbeddings := embeddingCache;
      var pendingEmbeddings := embeddingCache.Keys;
      while pendingEmbeddings != {}
        invariant pendingEmbeddings <= startEmbeddings.Keys
        invariant forall k :: k in embeddingCache <==>
                    k in startEmbeddings && (k in pendingEmbeddings || now - startEmbeddings[k].timestamp <= EmbeddingCacheTtl)
        invariant forall k :: k in embeddingCache ==> embeddingCache[k] == startEmbeddings[k]
        invariant resultCache == old(resultCache)
        decreases |pendingEmbeddings|
      {
        var k :| k in pendingEmbeddings;
        if now - embeddingCache[k].timestamp > EmbeddingCacheTtl {
          embeddingCache := embeddingCache - {k};
        }
        pendingEmbeddings := pendingEmbeddings - {k};
      }
      ghost var start := resultCache;
      var pending := resultCache.Keys;
      while pending != {}
        invariant pending <= start.Keys
        invariant forall k :: k in resultCache <==> k in start && (k in pending || now - start[k].timestamp <= start[k].ttl)
        invariant forall k :: k in resultCache ==> resultCache[k] == start[k]
        invariant embeddingCache == CleanedEmbeddings(startEmbeddings, now)
        decreases |pending|
      {
        var k :| k in pending;
        if now - resultCache[k].timestamp > resultCache[k].ttl {
          resultCache := resultCache - {k};
        }
        pending := pending - {k};
      }
    }

    /** `getCacheStats`: the two sizes; the embedding cache is always empty. */
    method GetCacheStats() returns (stats: CacheStats)
      ensures stats == CacheStats(|embeddingCache|, |resultCache|)
      ensures NoEmbeddings() ==> stats.embeddingCacheSize == 0
    {
      stats := CacheStats(|embeddingCache|, |resultCache|);
    }

    method ClearCache()
      modifies this
      ensures embeddingCache == map[] && resultCache == map[]
    {
      embeddingCache := map[];
      resultCache := map[];
    }

    /**
     * `healthCheck`: a fast search for a fixed agriculture query, classified
     * by the latency from `startTime` to the second clock reading and by its
     * result count. That latency is the time the fast search took plus
     * `overhead`, any further delay before the clock is read again. The search
     * never fails, so the exception branch cannot be taken.
     */
    method HealthCheck(startTime: int, elapsed: nat, overhead: nat,
                       embeds: string -> bool, search: (string, string, nat) -> KB.QueryOutcome)
      returns (h: HealthReport)
      modifies this
      ensures h == Classify(SearchDuration(old(resultCache), HealthIndustry, HealthQuery, FastOptions, startTime, elapsed) + overhead,
                            |Answer(old(resultCache), HealthIndustry, HealthQuery, FastOptions, startTime, elapsed, embeds, search)|)
      ensures resultCache == CacheAfter(old(resultCache), HealthIndustry, HealthQuery, FastOptions, startTime, elapsed, embeds, search)
      ensures embeddingCache == old(embeddingCache)
    {
      var duration := SearchDuration(resultCache, HealthIndustry, HealthQuery, FastOptions, startTime, elapsed);
      var results := FastSearch(HealthIndustry, HealthQuery, startTime, elapsed, embeds, search);
      var latency := duration + overhead;
      h := Classify(latency, |results|);
    }
  }
}
