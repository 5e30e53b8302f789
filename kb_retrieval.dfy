// The result shaping of the knowledge-base retriever: the namespace alias
// table, score filtering, descending order and truncation, the search across
// several industries, the expanded search with its de-duplication by id, and
// related documents. The embedding model, the vector index and the
// query-expansion model are parameters.
module KnowledgeBaseRetrieval {
  import opened Wrappers
  import Text
  import Sorting
  import JsMath

  datatype Metadata = Metadata(industry: string, sourceUrl: string, docId: string, title: string,
                               tokenCount: real, chunkIndex: real)

  datatype RelevantDocument = RelevantDocument(id: string, content: string, score: real, metadata: Metadata)

  /** A match as the index returns it; an absent score or metadata field is `None`. */
  datatype Match = Match(id: string, score: Option<real>, text: Option<string>, industry: Option<string>,
                         sourceUrl: Option<string>, docId: Option<string>, title: Option<string>,
                         tokenCount: Option<real>, chunkIndex: Option<real>)

  /** What one namespace query gives: its matches, or an error. */
  datatype QueryOutcome = Matches(matches: seq<Match>) | QueryFailed

  /**
   * One namespace query: the namespace, the query text, the number of
   * matches asked for, and the industry label given to matches without one.
   */
  datatype Query = Query(namespace: string, text: string, topK: nat, defaultIndustry: string)

  /** Caller options; `None` takes the method's default. */
  datatype RetrievalOptions = RetrievalOptions(topK: Option<nat>, minScore: Option<real>, includeAllIndustries: Option<bool>)

  const NoOptions := RetrievalOptions(None, None, None)

  const AllIndustries: string := "all_industries"
  const RetrieveFailed: string := "Failed to retrieve relevant documents"
  const AcrossFailed: string := "Failed to search across industries"
  const RelatedFailed: string := "Failed to get related documents"

  function TopKOr(o: RetrievalOptions, default: nat): nat { if o.topK.Some? then o.topK.value else default }
  function MinScoreOr(o: RetrievalOptions): real { if o.minScore.Some? then o.minScore.value else 0.3 }
  function IncludeAll(o: RetrievalOptions): bool { o.includeAllIndustries.Some? && o.includeAllIndustries.value }

  // ---------------------------------------------------------------- namespaces

  /** The alias table: fourteen lower-case labels onto five namespaces. */
  const IndustryMap: map<string, string> := map[
    "agriculture" := "agriculture",
    "clean_energy" := "clean_energy",
    "clean-energy" := "clean_energy",
    "medical" := "medical",
    "healthcare" := "medical",
    "enabling_capabilities" := "enabling_capabilities",
    "enabling-capabilities" := "enabling_capabilities",
    "manufacturing" := "enabling_capabilities",
    "technology" := "enabling_capabilities",
    "all_industries" := "all_industries",
    "all-industries" := "all_industries",
    "smec-services" := "all_industries",
    "smec_services" := "all_industries",
    "general" := "all_industries"
  ]

  const Namespaces: set<string> := {"agriculture", "clean_energy", "medical", "enabling_capabilities", "all_industries"}

  predicate NoUpper(s: string) { forall i :: 0 <= i < |s| ==> !Text.IsAsciiUpper(s[i]) }

  /** Every alias names one of the five namespaces, each of which is its own alias. */
  lemma IndustryMapShape()
    ensures forall k :: k in IndustryMap ==> IndustryMap[k] in Namespaces
    ensures forall n :: n in Namespaces ==> n in IndustryMap && IndustryMap[n] == n && NoUpper(n)
  {
    AliasesNameNamespaces();
    NamespacesAreOwnAliases();
    NamespacesAreLowerCase();
  }

  lemma AliasesNameNamespaces()
    ensures forall k :: k in IndustryMap ==> IndustryMap[k] in Namespaces
  {
  }

  lemma NamespacesAreOwnAliases()
    ensures forall n :: n in Namespaces ==> n in IndustryMap && IndustryMap[n] == n
  {
  }

  lemma NamespacesAreLowerCase()
    ensures forall n :: n in Namespaces ==> NoUpper(n)
  {
  }

  /**
   * `mapIndustryToNamespace`, with the table read as own properties only: an
   * alias gives its namespace, anything else passes through lower-cased.
   */
  function MapIndustryToNamespace(industry: string): (ns: string)
    ensures NoUpper(ns)
    ensures |ns| > 0 || industry == ""
  {
    IndustryMapShape();
    var key := Text.Lower(industry);
    if key in IndustryMap then IndustryMap[key] else key
  }

  /** Mapping a namespace again changes nothing. */
  lemma NamespaceIdempotent(industry: string)
    ensures MapIndustryToNamespace(MapIndustryToNamespace(industry)) == MapIndustryToNamespace(industry)
  {
    var ns := MapIndustryToNamespace(industry);
    Text.LowerOfLower(ns);
    IndustryMapShape();
  }

  /** The namespace does not depend on letter case. */
  lemma NamespaceIgnoresCase(a: string, b: string)
    requires Text.Lower(a) == Text.Lower(b)
    ensures MapIndustryToNamespace(a) == MapIndustryToNamespace(b)
  {
  }

  lemma AliasExamples()
    ensures MapIndustryToNamespace("Healthcare") == "medical"
    ensures MapIndustryToNamespace("clean-energy") == "clean_energy"
    ensures MapIndustryToNamespace("SMEC-Services") == "all_industries"
    ensures MapIndustryToNamespace("Mining") == "mining"
  {
    assert Text.Lower("Healthcare") == "healthcare";
    assert Text.Lower("clean-energy") == "clean-energy";
    assert Text.Lower("SMEC-Services") == "smec-services";
    assert Text.Lower("Mining") == "mining";
  }

  /** What a lookup in a plain object literal finds. */
  datatype Looked = OwnString(s: string) | InheritedMember(name: string)

  /** The members of `Object.prototype` whose names are already lower-case. */
  const InheritedLowerCase: set<string> := {"constructor", "__proto__"}

  /**
   * `mapIndustryToNamespace` as written: `industryMap[key] || key` also finds
   * the members every object inherits, which are not strings.
   */
  function MapIndustryToNamespaceAsWritten(industry: string): (r: Looked)
    ensures Text.Lower(industry) !in InheritedLowerCase ==> r == OwnString(MapIndustryToNamespace(industry))
  {
    var key := Text.Lower(industry);
    if key in IndustryMap then OwnString(IndustryMap[key])
    else if key in InheritedLowerCase then InheritedMember(key)
    else OwnString(key)
  }

  /** The label "Constructor" yields the inherited `Object` constructor, not a namespace. */
  lemma ConstructorLabelIsNotANamespace()
    ensures MapIndustryToNamespaceAsWritten("Constructor") == InheritedMember("constructor")
    ensures MapIndustryToNamespace("Constructor") == "constructor"
  {
    assert Text.Lower("Constructor") == "constructor";
  }

  // ---------------------------------------------------------------- shaping one query

  /** `match.score || 0`. */
  function ScoreOf(m: Match): real { if m.score.Some? then m.score.value else 0.0 }

  /** `value as number || 0`. */
  function NumberOr(v: Option<real>): real { if v.Some? then v.value else 0.0 }

  function ToDocument(m: Match, defaultIndustry: string): (d: RelevantDocument)
    ensures d.id == m.id && d.score == ScoreOf(m)
    ensures d.metadata.industry == Text.OrElse(m.industry, defaultIndustry)
  {
    RelevantDocument(m.id, Text.OrElse(m.text, ""), ScoreOf(m),
                     Metadata(Text.OrElse(m.industry, defaultIndustry), Text.OrElse(m.sourceUrl, ""), Text.OrElse(m.docId, ""),
                              Text.OrElse(m.title, ""), NumberOr(m.tokenCount), NumberOr(m.chunkIndex)))
  }

  /** The matches scoring at least `minScore`, as documents, in index order. */
  function Shape(ms: seq<Match>, minScore: real, defaultIndustry: string): (r: seq<RelevantDocument>)
    ensures |r| <= |ms|
    ensures forall d :: d in r ==> d.score >= minScore && exists m :: m in ms && d == ToDocument(m, defaultIndustry)
    ensures forall m :: m in ms && ScoreOf(m) >= minScore ==> ToDocument(m, defaultIndustry) in r
  {
    if |ms| == 0 then []
    else (if ScoreOf(ms[0]) >= minScore then [ToDocument(ms[0], defaultIndustry)] else []) + Shape(ms[1..], minScore, defaultIndustry)
  }

  /** A query's documents; a failing namespace contributes none. */
  function Outcome(q: Query, minScore: real, search: (string, string, nat) -> QueryOutcome): seq<RelevantDocument>
  {
    match search(q.namespace, q.text, q.topK)
    case Matches(ms) => Shape(ms, minScore, q.defaultIndustry)
    case QueryFailed => []
  }

  /** The documents of several queries, concatenated in order and without de-duplication. */
  function Gather(qs: seq<Query>, minScore: real, search: (string, string, nat) -> QueryOutcome): seq<RelevantDocument>
  {
    if |qs| == 0 then [] else Gather(qs[..|qs| - 1], minScore, search) + Outcome(qs[|qs| - 1], minScore, search)
  }

  lemma {:induction false} GatherProperties(qs: seq<Query>, minScore: real, search: (string, string, nat) -> QueryOutcome)
    ensures forall d :: d in Gather(qs, minScore, search) ==>
              d.score >= minScore && exists q :: q in qs && d in Outcome(q, minScore, search)
  {
    if |qs| > 0 {
      var init := qs[..|qs| - 1];
      GatherProperties(init, minScore, search);
      forall d | d in Gather(qs, minScore, search)
        ensures d.score >= minScore && exists q :: q in qs && d in Outcome(q, minScore, search)
      {
        if d in Gather(init, minScore, search) {
          var q :| q in init && d in Outcome(q, minScore, search);
          assert q in qs;
        } else {
          var q := qs[|qs| - 1];
          assert d in Outcome(q, minScore, search);
          match search(q.namespace, q.text, q.topK)
          case Matches(ms) =>
          case QueryFailed =>
        }
      }
    }
  }

  function ByScore(d: RelevantDocument): real { d.score }

  /** `.sort((a, b) => b.score - a.score).slice(0, k)`. */
  function TopByScore(docs: seq<RelevantDocument>, k: nat): seq<RelevantDocument>
  {
    Sorting.Take(Sorting.SortDesc(docs, ByScore), k)
  }

  /**
   * The first `k` by descending score: sorted, as long as allowed, drawn from
   * the input, and no input left out outscores one kept.
   */
  lemma TopByScoreProperties(docs: seq<RelevantDocument>, k: nat)
    ensures var r := TopByScore(docs, k);
      Sorting.SortedDesc(r, ByScore)
      && |r| == (if k < |docs| then k else |docs|)
      && (forall d :: d in r ==> d in docs)
      && (forall d, e :: d in docs && d !in r && e in r ==> e.score >= d.score)
      && (k >= |docs| ==> multiset(r) == multiset(docs))
  {
    Sorting.TakeSortDesc(docs, ByScore, k);
  }

  /**
   * `r` is what `TopByScore(all, k)` promises: sorted by descending score,
   * `min(k, |all|)` long, and no document of `all` left out outscores one kept.
   */
  ghost predicate TopOf(r: seq<RelevantDocument>, all: seq<RelevantDocument>, k: nat)
  {
    Sorting.SortedDesc(r, ByScore)
    && |r| == (if k < |all| then k else |all|)
    && (forall d, e :: d in all && d !in r && e in r ==> e.score >= d.score)
  }

  /** A top list of distinct ids keeps its ids distinct. */
  lemma TopByScoreDistinct(docs: seq<RelevantDocument>, k: nat)
    requires Sorting.DistinctBy(docs, (d: RelevantDocument) => d.id)
    ensures Sorting.DistinctBy(TopByScore(docs, k), (d: RelevantDocument) => d.id)
  {
    Sorting.SortDescDistinct(docs, ByScore, (d: RelevantDocument) => d.id);
    var s := Sorting.SortDesc(docs, ByScore);
    var r := TopByScore(docs, k);
    assert r == s[..|r|];
  }

  // ---------------------------------------------------------------- getRelevantDocs

  /**
   * The namespace queries `getRelevantDocs` issues: the industry's namespace
   * with `topK`, then all_industries with half as many, rounded up, when the
   * caller asks for it and the industry is not already all_industries.
   */
  function Queries(industry: string, query: string, topK: nat, includeAll: bool): (qs: seq<Query>)
    ensures 1 <= |qs| <= 2
    ensures qs[0] == Query(MapIndustryToNamespace(industry), query, topK, industry)
    ensures |qs| == 2 <==> includeAll && MapIndustryToNamespace(industry) != AllIndustries
    ensures |qs| == 2 ==> qs[1] == Query(AllIndustries, query, JsMath.CeilDiv(topK, 2), AllIndustries)
                          && 2 * qs[1].topK >= topK
  {
    var ns := MapIndustryToNamespace(industry);
    var half := JsMath.CeilDiv(topK, 2);
    [Query(ns, query, topK, industry)]
    + (if includeAll && ns != AllIndustries then [Query(AllIndustries, query, half, AllIndustries)] else [])
  }

  /**
   * `getRelevantDocs`: fails only when the query cannot be embedded; a failing
   * namespace is skipped. `embeds` says whether the embedding call succeeds and
   * `search` answers one namespace query.
   */
  function GetRelevantDocs(industry: string, query: string, options: RetrievalOptions,
                           embeds: string -> bool, search: (string, string, nat) -> QueryOutcome)
    : (r: Result<seq<RelevantDocument>, string>)
    ensures r.Success? <==> embeds(query)
    ensures r.Failure? ==> r.error == RetrieveFailed
    ensures r.Success? ==>
      var qs := Queries(industry, query, TopKOr(options, 5), IncludeAll(options));
      TopOf(r.value, Gather(qs, MinScoreOr(options), search), TopKOr(options, 5))
      && (forall d :: d in r.value ==>
            d.score >= MinScoreOr(options) && exists q :: q in qs && d in Outcome(q, MinScoreOr(options), search))
  {
    if !embeds(query) then Failure(RetrieveFailed)
    else
      var topK := TopKOr(options, 5);
      var qs := Queries(industry, query, topK, IncludeAll(options));
      var all := Gather(qs, MinScoreOr(options), search);
      GatherProperties(qs, MinScoreOr(options), search);
      TopByScoreProperties(all, topK);
      Success(TopByScore(all, topK))
  }

  /** With room for everything, nothing is dropped and nothing merged: a document found twice is kept twice. */
  lemma RelevantDocsKeepDuplicates(industry: string, query: string, options: RetrievalOptions,
                                   embeds: string -> bool, search: (string, string, nat) -> QueryOutcome)
    requires embeds(query)
    requires var qs := Queries(industry, query, TopKOr(options, 5), IncludeAll(options));
      |Gather(qs, MinScoreOr(options), search)| <= TopKOr(options, 5)
    ensures multiset(GetRelevantDocs(industry, query, options, embeds, search).value)
            == multiset(Gather(Queries(industry, query, TopKOr(options, 5), IncludeAll(options)), MinScoreOr(options), search))
  {
    var qs := Queries(industry, query, TopKOr(options, 5), IncludeAll(options));
    TopByScoreProperties(Gather(qs, MinScoreOr(options), search), TopKOr(options, 5));
  }

  // ---------------------------------------------------------------- searchAcrossIndustries

  /** The quota per namespace, `Math.ceil(topK / n)`; together the quotas cover `topK`. */
  function PerNamespace(topK: nat, n: nat): (k: nat)
    ensures n > 0 ==> n * k >= topK && (k == 0 || n * (k - 1) < topK)
  {
    if n == 0 then 0 else JsMath.CeilDiv(topK, n)
  }

  function AcrossQueries(query: string, industries: seq<string>, perNs: nat): (qs: seq<Query>)
    ensures |qs| == |industries|
    ensures forall i :: 0 <= i < |qs| ==> qs[i] == Query(MapIndustryToNamespace(industries[i]), query, perNs, industries[i])
  {
    seq(|industries|, i requires 0 <= i < |industries| => Query(MapIndustryToNamespace(industries[i]), query, perNs, industries[i]))
  }

  /** The industries searched: the caller's, or when none are given every namespace the index lists. */
  function Searched(industries: seq<string>, available: seq<string>): seq<string>
  {
    if |industries| == 0 then available else industries
  }

  function SearchAcrossSpec(query: string, industries: seq<string>, options: RetrievalOptions, available: seq<string>,
                            embeds: string -> bool, search: (string, string, nat) -> QueryOutcome)
    : Result<seq<RelevantDocument>, string>
  {
    var names := Searched(industries, available);
    var topK := TopKOr(options, 10);
    if !embeds(query) then Failure(AcrossFailed)
    else Success(TopByScore(Gather(AcrossQueries(query, names, PerNamespace(topK, |names|)), MinScoreOr(options), search), topK))
  }

  /**
   * `searchAcrossIndustries`: one query per industry for its share of `topK`,
   * then the overall best `topK`. `available` is what the index lists.
   */
  method SearchAcrossIndustries(query: string, industries: seq<string>, options: RetrievalOptions, available: seq<string>,
                                embeds: string -> bool, search: (string, string, nat) -> QueryOutcome)
    returns (r: Result<seq<RelevantDocument>, string>)
    ensures r == SearchAcrossSpec(query, industries, options, available, embeds, search)
  {
    var names := if |industries| == 0 then available else industries;
    var topK := TopKOr(options, 10);
    var minScore := MinScoreOr(options);
    if !embeds(query) {
      return Failure(AcrossFailed);
    }
    var perNs := PerNamespace(topK, |names|);
    ghost var qs := AcrossQueries(query, names, perNs);
    var all: seq<RelevantDocument> := [];
    var i := 0;
    while i < |names|
      invariant 0 <= i <= |names|
      invariant all == Gather(qs[..i], minScore, search)
    {
      var q := Query(MapIndustryToNamespace(names[i]), query, perNs, names[i]);
      assert q == qs[i];
      GatherPrefixStep(qs, i, minScore, search);
      all := all + Outcome(q, minScore, search);
      i := i + 1;
    }
    assert qs[..|names|] == qs;
    r := Success(TopByScore(all, topK));
  }

  /** Gathering one more query of a list appends that query's documents. */
  lemma GatherPrefixStep(qs: seq<Query>, i: nat, minScore: real, search: (string, string, nat) -> QueryOutcome)
    requires i < |qs|
    ensures Gather(qs[..i + 1], minScore, search) == Gather(qs[..i], minScore, search) + Outcome(qs[i], minScore, search)
  {
    assert qs[..i + 1][..i] == qs[..i];
  }

  /** The search across industries keeps the overall best scores, each from one of the industry queries. */
  lemma SearchAcrossShape(query: string, industries: seq<string>, options: RetrievalOptions, available: seq<string>,
                          embeds: string -> bool, search: (string, string, nat) -> QueryOutcome)
    ensures var r := SearchAcrossSpec(query, industries, options, available, embeds, search);
      var names := Searched(industries, available);
      var qs := AcrossQueries(query, names, PerNamespace(TopKOr(options, 10), |names|));
      (r.Success? <==> embeds(query))
      && (r.Success? ==>
            TopOf(r.value, Gather(qs, MinScoreOr(options), search), TopKOr(options, 10))
            && (forall d :: d in r.value ==>
                  d.score >= MinScoreOr(options) && exists q :: q in qs && d in Outcome(q, MinScoreOr(options), search)))
  {
    var names := Searched(industries, available);
    var topK := TopKOr(options, 10);
    var qs := AcrossQueries(query, names, PerNamespace(topK, |names|));
    GatherProperties(qs, MinScoreOr(options), search);
    TopByScoreProperties(Gather(qs, MinScoreOr(options), search), topK);
  }

  // ---------------------------------------------------------------- getRelatedDocuments

  /** `docs.filter(d => d.id !== documentId)`. */
  function Others(docs: seq<RelevantDocument>, documentId: string): (r: seq<RelevantDocument>)
    ensures forall d :: d in r <==> d in docs && d.id != documentId
  {
    Sorting.Filter(docs, (d: RelevantDocument) => d.id != documentId)
  }

  /**
   * `getRelatedDocuments`: the stored text of `documentId` is the query; one
   * extra result is asked for so that dropping the document itself still
   * leaves `topK`. `fetch` gives a record's text, `None` when it is missing
   * or the fetch fails.
   */
  function GetRelatedDocuments(documentId: string, industry: string, options: RetrievalOptions,
                               fetch: (string, string) -> Option<string>,
                               embeds: string -> bool, search: (string, string, nat) -> QueryOutcome)
    : (r: Result<seq<RelevantDocument>, string>)
    ensures var text := fetch(MapIndustryToNamespace(industry), documentId);
      r.Success? <==> text.Some? && text.value != "" && embeds(text.value)
    ensures r.Failure? ==> r.error == RelatedFailed
    ensures r.Success? ==>
      var text := fetch(MapIndustryToNamespace(industry), documentId).value;
      var wider := GetRelevantDocs(industry, text, options.(topK := Some(TopKOr(options, 5) + 1)), embeds, search);
      var others := Others(wider.value, documentId);
      |r.value| == (if TopKOr(options, 5) < |others| then TopKOr(options, 5) else |others|)
      && r.value == others[..|r.value|]
      && (forall d :: d in r.value ==> d.id != documentId && d in wider.value)
  {
    var topK := TopKOr(options, 5);
    var text := fetch(MapIndustryToNamespace(industry), documentId);
    if !(text.Some? && text.value != "") then Failure(RelatedFailed)
    else
      match GetRelevantDocs(industry, text.value, options.(topK := Some(topK + 1)), embeds, search)
      case Failure(_) => Failure(RelatedFailed)
      case Success(docs) => Success(Sorting.Take(Others(docs, documentId), topK))
  }

  // ---------------------------------------------------------------- query expansion

  /** The expansion model's reply: an error, or the message content if any. */
  datatype ExpansionReply = ExpansionThrew | Expansion(content: Option<string>)

  /** `s` is one of `lines`, trimmed, and longer than ten characters. */
  predicate LongLineOf(s: string, lines: seq<string>)
  {
    |s| > 10 && Text.Trim(s) == s && exists l :: l in lines && s == Text.Trim(l)
  }

  /** The trimmed lines longer than ten characters, in order. */
  function LongLines(lines: seq<string>): (r: seq<string>)
    ensures |r| <= |lines|
    ensures forall s :: s in r ==> LongLineOf(s, lines)
    ensures forall l :: l in lines && |Text.Trim(l)| > 10 ==> Text.Trim(l) in r
  {
    if |lines| == 0 then []
    else
      Text.TrimIdempotent(lines[0]);
      (if |Text.Trim(lines[0])| > 10 then [Text.Trim(lines[0])] else []) + LongLines(lines[1..])
  }

  /** The first three lines of `content`, trimmed, that are longer than ten characters, in order. */
  function KeptLines(content: string): (kept: seq<string>)
    ensures var long := LongLines(Text.Split(content, '\n'));
      |kept| == (if 3 < |long| then 3 else |long|) && kept == long[..|kept|]
    ensures forall s :: s in kept ==> LongLineOf(s, Text.Split(content, '\n'))
  {
    var lines := LongLines(Text.Split(content, '\n'));
    var kept := Sorting.Take(lines, 3);
    assert forall s :: s in kept ==> s in lines;
    kept
  }

  /**
   * `generateExpandedQueries`: the original query, then at most three lines of
   * the reply, trimmed and longer than ten characters; just the query when
   * the model call fails.
   */
  function GenerateExpandedQueries(query: string, reply: ExpansionReply): (qs: seq<string>)
    ensures 1 <= |qs| <= 4 && qs[0] == query
    ensures reply.ExpansionThrew? ==> qs == [query]
    ensures reply.Expansion? ==> qs == [query] + KeptLines(Text.OrElse(reply.content, ""))
  {
    match reply
    case ExpansionThrew => [query]
    case Expansion(content) => [query] + KeptLines(Text.OrElse(content, ""))
  }

  /** Every query after the original is a trimmed line of the reply longer than ten characters. */
  lemma ExpandedQueriesFromReply(query: string, reply: ExpansionReply)
    ensures var qs := GenerateExpandedQueries(query, reply);
      forall i :: 1 <= i < |qs| ==> LongLineOf(qs[i], Text.Split(Text.OrElse(reply.content, ""), '\n'))
  {
    if reply.Expansion? {
      var content := Text.OrElse(reply.content, "");
      var lines := Text.Split(content, '\n');
      var kept := KeptLines(content);
      assert GenerateExpandedQueries(query, reply) == [query] + kept;
      forall i | 0 <= i < |kept|
        ensures LongLineOf(kept[i], lines)
      {
        assert kept[i] in kept;
      }
    }
  }

  // ---------------------------------------------------------------- expandedSearch

  /** The de-duplicating map: ids in first-insertion order and the document kept for each. */
  datatype Kept = Kept(order: seq<string>, byId: map<string, RelevantDocument>)

  /** A document replaces the one kept for its id only with a strictly higher score. */
  function KeepStep(k: Kept, d: RelevantDocument): Kept
  {
    if d.id !in k.byId then Kept(k.order + [d.id], k.byId[d.id := d])
    else if k.byId[d.id].score < d.score then Kept(k.order, k.byId[d.id := d])
    else k
  }

  function Dedup(xs: seq<RelevantDocument>): Kept
  {
    if |xs| == 0 then Kept([], map[]) else KeepStep(Dedup(xs[..|xs| - 1]), xs[|xs| - 1])
  }

  /** The map's keys are exactly its insertion order, without repetition, and each entry is filed under its own id. */
  ghost predicate WellKept(k: Kept)
  {
    (forall id :: id in k.byId <==> id in k.order)
    && (forall i, j :: 0 <= i < j < |k.order| ==> k.order[i] != k.order[j])
    && (forall id :: id in k.byId ==> k.byId[id].id == id)
  }

  lemma {:induction false} DedupWellKept(xs: seq<RelevantDocument>)
    ensures WellKept(Dedup(xs))
  {
    if |xs| > 0 {
      var k := Dedup(xs[..|xs| - 1]);
      var d := xs[|xs| - 1];
      DedupWellKept(xs[..|xs| - 1]);
      if d.id !in k.byId {
        var k' := KeepStep(k, d);
        forall i, j | 0 <= i < j < |k'.order| ensures k'.order[i] != k'.order[j] {
          if j == |k.order| {
            assert k'.order[i] == k.order[i];
          }
        }
      }
    }
  }

  /**
   * The position of the document kept for `id`: the first one with the
   * highest score among those with that id, or -1 when there is none.
   */
  function BestIndex(xs: seq<RelevantDocument>, id: string): (b: int)
    ensures -1 <= b < |xs|
    ensures b >= 0 ==> xs[b].id == id
  {
    if |xs| == 0 then -1
    else
      var n := |xs| - 1;
      var b := BestIndex(xs[..n], id);
      if xs[n].id == id && (b < 0 || xs[b].score < xs[n].score) then n else b
  }

  lemma {:induction false} BestIndexProperties(xs: seq<RelevantDocument>, id: string)
    ensures var b := BestIndex(xs, id);
      (b < 0 ==> forall j :: 0 <= j < |xs| ==> xs[j].id != id)
      && (b >= 0 ==> (forall j :: 0 <= j < |xs| && xs[j].id == id ==> xs[j].score <= xs[b].score)
                     && (forall j :: 0 <= j < b && xs[j].id == id ==> xs[j].score < xs[b].score))
  {
    if |xs| > 0 {
      var n := |xs| - 1;
      var init := xs[..n];
      BestIndexProperties(init, id);
      var b0 := BestIndex(init, id);
      assert forall j :: 0 <= j < n ==> xs[j] == init[j];
    }
  }

  /** The map holds an id exactly when a document has it, and then the one at `BestIndex`. */
  lemma {:induction false} DedupKeepsBest(xs: seq<RelevantDocument>, id: string)
    ensures id in Dedup(xs).byId <==> BestIndex(xs, id) >= 0
    ensures id in Dedup(xs).byId ==> Dedup(xs).byId[id] == xs[BestIndex(xs, id)]
  {
    if |xs| > 0 {
      var n := |xs| - 1;
      var init := xs[..n];
      DedupKeepsBest(init, id);
      var b0 := BestIndex(init, id);
      if b0 >= 0 {
        assert xs[b0] == init[b0];
      }
    }
  }

  /** `Array.from(uniqueResults.values())`: the kept documents in insertion order. */
  function Values(k: Kept): (vs: seq<RelevantDocument>)
    requires forall id :: id in k.order ==> id in k.byId
    ensures |vs| == |k.order|
  {
    seq(|k.order|, i requires 0 <= i < |k.order| => k.byId[k.order[i]])
  }

  function Unique(xs: seq<RelevantDocument>): seq<RelevantDocument>
  {
    DedupWellKept(xs);
    Values(Dedup(xs))
  }

  /** Each id of the input once, carried by the first of its best-scored documents. */
  lemma UniqueProperties(xs: seq<RelevantDocument>)
    ensures Sorting.DistinctBy(Unique(xs), (d: RelevantDocument) => d.id)
    ensures forall d :: d in Unique(xs) ==> BestIndex(xs, d.id) >= 0 && d == xs[BestIndex(xs, d.id)]
    ensures forall x :: x in xs ==> BestIndex(xs, x.id) >= 0 && xs[BestIndex(xs, x.id)] in Unique(xs)
  {
    DedupWellKept(xs);
    var k := Dedup(xs);
    var u := Unique(xs);
    forall d | d in u ensures BestIndex(xs, d.id) >= 0 && d == xs[BestIndex(xs, d.id)] {
      var i :| 0 <= i < |u| && u[i] == d;
      DedupKeepsBest(xs, k.order[i]);
    }
    forall x | x in xs ensures BestIndex(xs, x.id) >= 0 && xs[BestIndex(xs, x.id)] in u {
      BestIndexProperties(xs, x.id);
      DedupKeepsBest(xs, x.id);
      var i :| 0 <= i < |k.order| && k.order[i] == x.id;
      assert u[i] == k.byId[x.id];
    }
  }

  /** What the kept documents are: in the input, best of their id, first among equals. */
  lemma UniqueIsFirstBest(xs: seq<RelevantDocument>, d: RelevantDocument)
    requires d in Unique(xs)
    ensures d in xs
    ensures forall x :: x in xs && x.id == d.id ==> x.score <= d.score
    ensures exists i :: 0 <= i < |xs| && xs[i] == d && forall j :: 0 <= j < i && xs[j].id == d.id ==> xs[j].score < d.score
  {
    UniqueProperties(xs);
    BestIndexProperties(xs, d.id);
    var b := BestIndex(xs, d.id);
    forall x | x in xs && x.id == d.id ensures x.score <= d.score {
      var j :| 0 <= j < |xs| && xs[j] == x;
    }
  }

  /** The fallback as written: it passes the query as the industry and the industry as the query. */
  function FallbackAsWritten(query: string, industry: string, options: RetrievalOptions,
                             embeds: string -> bool, search: (string, string, nat) -> QueryOutcome)
    : Result<seq<RelevantDocument>, string>
  {
    GetRelevantDocs(query, industry, options, embeds, search)
  }

  /** The fallback as meant: a plain search of the caller's industry with the caller's query. */
  function Fallback(query: string, industry: string, options: RetrievalOptions,
                    embeds: string -> bool, search: (string, string, nat) -> QueryOutcome)
    : (r: Result<seq<RelevantDocument>, string>)
    ensures r.Success? <==> embeds(query)
    ensures r.Success? ==>
      forall d :: d in r.value ==>
        exists q :: q in Queries(industry, query, TopKOr(options, 5), IncludeAll(options))
                    && q.text == query && d in Outcome(q, MinScoreOr(options), search)
  {
    GetRelevantDocs(industry, query, options, embeds, search)
  }

  /** An index holding one agriculture document about drones. */
  function DroneIndex(ns: string, text: string, k: nat): QueryOutcome
  {
    if text == DroneQuery && ns == "agriculture" then
      Matches([Match("doc-1", Some(0.9), Some("Drones cut spraying time"), None, None, None, None, None, None)])
    else Matches([])
  }

  /** Without options one namespace is searched for five results at the default threshold. */
  lemma PlainSearch(industry: string, query: string, embeds: string -> bool, search: (string, string, nat) -> QueryOutcome)
    requires embeds(query)
    ensures GetRelevantDocs(industry, query, NoOptions, embeds, search)
         == Success(TopByScore(Outcome(Query(MapIndustryToNamespace(industry), query, 5, industry), 0.3, search), 5))
  {
    var qs := Queries(industry, query, 5, false);
    assert qs == [Query(MapIndustryToNamespace(industry), query, 5, industry)];
    assert qs[..0] == [];
    var out := Outcome(qs[0], 0.3, search);
    assert Gather(qs, 0.3, search) == [] + out;
    assert [] + out == out;
  }

  const DroneQuery: string := "drones"

  /**
   * With the arguments swapped the query becomes the namespace and the
   * industry label the search text, and nothing matches.
   */
  lemma SwappedFallbackSearchesQueryNamespace()
    ensures FallbackAsWritten(DroneQuery, "agriculture", NoOptions, _ => true, DroneIndex).value == []
  {
    PlainSearch(DroneQuery, "agriculture", _ => true, DroneIndex);
    assert DroneIndex(MapIndustryToNamespace(DroneQuery), "agriculture", 5) == Matches([]);
    assert Sorting.SortDesc([], ByScore) == [];
  }

  /** The intended fallback searches the agriculture namespace and finds its document. */
  lemma FallbackFindsDocument()
    ensures |Fallback(DroneQuery, "agriculture", NoOptions, _ => true, DroneIndex).value| == 1
  {
    PlainSearch("agriculture", DroneQuery, _ => true, DroneIndex);
    IndustryMapShape();
    assert "agriculture" in Namespaces;
    Text.LowerOfLower("agriculture");
    assert MapIndustryToNamespace("agriculture") == "agriculture";
    var m := Match("doc-1", Some(0.9), Some("Drones cut spraying time"), None, None, None, None, None, None);
    var d := ToDocument(m, "agriculture");
    assert DroneIndex("agriculture", DroneQuery, 5) == Matches([m]);
    assert Shape([m], 0.3, "agriculture") == [d];
    assert Sorting.SortDesc([d], ByScore) == [d] by {
      assert [d][..0] == [];
    }
  }

  /** With the arguments swapped the agriculture namespace is never searched, so its document is lost. */
  lemma SwappedFallbackLosesResults()
    ensures FallbackAsWritten(DroneQuery, "agriculture", NoOptions, _ => true, DroneIndex).value == []
    ensures |Fallback(DroneQuery, "agriculture", NoOptions, _ => true, DroneIndex).value| == 1
  {
    SwappedFallbackSearchesQueryNamespace();
    FallbackFindsDocument();
  }

  function ExpandedGather(queries: seq<string>, industry: string, options: RetrievalOptions,
                          embeds: string -> bool, search: (string, string, nat) -> QueryOutcome)
    : Option<seq<RelevantDocument>>
  {
    if |queries| == 0 then Some([])
    else
      match ExpandedGather(queries[..|queries| - 1], industry, options, embeds, search)
      case None => None
      case Some(prev) =>
        match GetRelevantDocs(industry, queries[|queries| - 1], options, embeds, search)
        case Failure(_) => None
        case Success(docs) => Some(prev + docs)
  }

  /** The merged result of the gathered searches, or the fallback when one of them failed. */
  function Finish(gathered: Option<seq<RelevantDocument>>, topK: nat, fallback: Result<seq<RelevantDocument>, string>)
    : Result<seq<RelevantDocument>, string>
  {
    match gathered
    case None => fallback
    case Some(all) => Success(TopByScore(Unique(all), topK))
  }

  function ExpandedSearchSpec(query: string, industry: string, options: RetrievalOptions, reply: ExpansionReply,
                              embeds: string -> bool, search: (string, string, nat) -> QueryOutcome)
    : Result<seq<RelevantDocument>, string>
  {
    var topK := TopKOr(options, 8);
    var queries := GenerateExpandedQueries(query, reply);
    var per := JsMath.CeilDiv(topK, |queries|);
    Finish(ExpandedGather(queries, industry, options.(topK := Some(per)), embeds, search), topK,
           Fallback(query, industry, options, embeds, search))
  }

  /**
   * `expandedSearch`: each expanded query gets its share of `topK`; the
   * results are merged by id, sorted and cut to `topK`. A failing search
   * falls back to a plain search.
   */
  method ExpandedSearch(query: string, industry: string, options: RetrievalOptions, reply: ExpansionReply,
                        embeds: string -> bool, search: (string, string, nat) -> QueryOutcome)
    returns (r: Result<seq<RelevantDocument>, string>)
    ensures r == ExpandedSearchSpec(query, industry, options, reply, embeds, search)
  {
    var topK := TopKOr(options, 8);
    var queries := GenerateExpandedQueries(query, reply);
    var per := JsMath.CeilDiv(topK, |queries|);
    var gathered := SearchEach(queries, industry, options.(topK := Some(per)), embeds, search);
    if gathered.None? {
      return Fallback(query, industry, options, embeds, search);
    }
    var values := MergeById(gathered.value);
    r := Success(TopByScore(values, topK));
  }

  /** The loop over the expanded queries, stopping at the first failing search. */
  method SearchEach(queries: seq<string>, industry: string, options: RetrievalOptions,
                    embeds: string -> bool, search: (string, string, nat) -> QueryOutcome)
    returns (gathered: Option<seq<RelevantDocument>>)
    ensures gathered == ExpandedGather(queries, industry, options, embeds, search)
  {
    var all: seq<RelevantDocument> := [];
    var i := 0;
    while i < |queries|
      invariant 0 <= i <= |queries|
      invariant ExpandedGather(queries[..i], industry, options, embeds, search) == Some(all)
    {
      assert queries[..i + 1][..i] == queries[..i];
      var results := GetRelevantDocs(industry, queries[i], options, embeds, search);
      if results.Failure? {
        ExpandedGatherStops(queries, i, industry, options, embeds, search);
        return None;
      }
      all := all + results.value;
      i := i + 1;
    }
    assert queries[..|queries|] == queries;
    gathered := Some(all);
  }

  /** The de-duplication loop over a `Map` keyed by document id. */
  method MergeById(all: seq<RelevantDocument>) returns (values: seq<RelevantDocument>)
    ensures values == Unique(all)
  {
    var order: seq<string> := [];
    var byId: map<string, RelevantDocument> := map[];
    var j := 0;
    while j < |all|
      invariant 0 <= j <= |all|
      invariant Kept(order, byId) == Dedup(all[..j])
    {
      var d := all[j];
      if d.id !in byId {
        order := order + [d.id];
        byId := byId[d.id := d];
      } else if byId[d.id].score < d.score {
        byId := byId[d.id := d];
      }
      assert all[..j + 1][..j] == all[..j];
      j := j + 1;
    }
    assert all[..|all|] == all;
    DedupWellKept(all);
    values := seq(|order|, k requires 0 <= k < |order| => byId[order[k]]);
  }

  /** A failing search for one expanded query makes the whole gathering fail. */
  lemma {:induction false} ExpandedGatherStops(queries: seq<string>, i: nat, industry: string, options: RetrievalOptions,
                                               embeds: string -> bool, search: (string, string, nat) -> QueryOutcome)
    requires i < |queries|
    requires ExpandedGather(queries[..i], industry, options, embeds, search).Some?
    requires GetRelevantDocs(industry, queries[i], options, embeds, search).Failure?
    ensures ExpandedGather(queries, industry, options, embeds, search).None?
  {
    assert queries[..i + 1][..i] == queries[..i];
    ExpandedGatherFails(queries[..i + 1], queries, industry, options, embeds, search);
  }

  /** Once a prefix fails, every longer prefix fails. */
  lemma {:induction false} ExpandedGatherFails(pre: seq<string>, queries: seq<string>, industry: string, options: RetrievalOptions,
                                               embeds: string -> bool, search: (string, string, nat) -> QueryOutcome)
    requires pre <= queries
    requires ExpandedGather(pre, industry, options, embeds, search).None?
    ensures ExpandedGather(queries, industry, options, embeds, search).None?
    decreases |queries|
  {
    if |queries| > |pre| {
      var init := queries[..|queries| - 1];
      assert pre <= init;
      ExpandedGatherFails(pre, init, industry, options, embeds, search);
    } else {
      assert pre == queries;
    }
  }

  /**
   * The expanded search returns the `topK` best of the merged documents
   * (all of them when fewer), one per id, sorted by score, each the first
   * best-scored document of its id among the searches' results; when one
   * search failed, the fallback.
   */
  lemma ExpandedSearchShape(gathered: Option<seq<RelevantDocument>>, topK: nat, fallback: Result<seq<RelevantDocument>, string>)
    ensures var r := Finish(gathered, topK, fallback);
      (gathered.None? ==> r == fallback)
      && (gathered.Some? ==>
            r.Success?
            && Sorting.SortedDesc(r.value, ByScore)
            && |r.value| <= topK
            && TopOf(r.value, Unique(gathered.value), topK)
            && Sorting.DistinctBy(r.value, (d: RelevantDocument) => d.id)
            && (forall d :: d in r.value ==>
                  BestIndex(gathered.value, d.id) >= 0 && d == gathered.value[BestIndex(gathered.value, d.id)]))
  {
    if gathered.Some? {
      UniqueProperties(gathered.value);
      TopByScoreProperties(Unique(gathered.value), topK);
      TopByScoreDistinct(Unique(gathered.value), topK);
    }
  }
}
