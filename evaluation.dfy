// The retrieval-quality evaluation: precision among the first k results,
// topic coverage, the hallucination-risk ladder, the per-query pass
// criterion, and the summary grade and recommendations. The retriever and
// the clock are parameters.
module Evaluation {
  import opened Wrappers
  import Text
  import Sorting
  import KB = KnowledgeBaseRetrieval

  type Doc = KB.RelevantDocument

  // ---------------------------------------------------------------- relevance

  /** The lower-cased text a result is matched on: its content, a space and its title. */
  function DocText(d: Doc): string { Text.Lower(d.content + " " + d.metadata.title) }

  /** Whether the lower-cased `topic` occurs in `text`. */
  predicate Mentions(text: string, topic: string) { Text.Includes(text, Text.Lower(topic)) }

  /** `topics.some(topic => text.includes(topic.toLowerCase()))`. */
  function MentionsAny(text: string, topics: seq<string>): bool
  {
    if |topics| == 0 then false else Mentions(text, topics[0]) || MentionsAny(text, topics[1..])
  }

  /** Some expected topic occurs in the text. */
  lemma {:induction false} MentionsAnyIff(text: string, topics: seq<string>)
    ensures MentionsAny(text, topics) <==> exists j :: 0 <= j < |topics| && Mentions(text, topics[j])
  {
    if |topics| > 0 {
      MentionsAnyIff(text, topics[1..]);
      assert forall j :: 0 < j < |topics| ==> topics[1..][j - 1] == topics[j];
    }
  }

  predicate Relevant(d: Doc, topics: seq<string>) { MentionsAny(DocText(d), topics) }

  /** The number of relevant documents in `docs`. */
  function RelevantCount(docs: seq<Doc>, topics: seq<string>): (n: nat)
    ensures n <= |docs|
  {
    if |docs| == 0 then 0
    else RelevantCount(docs[..|docs| - 1], topics) + (if Relevant(docs[|docs| - 1], topics) then 1 else 0)
  }

  /** Every document is relevant exactly when all of them count, and none is when the count is 0. */
  lemma {:induction false} RelevantCountExtremes(docs: seq<Doc>, topics: seq<string>)
    ensures RelevantCount(docs, topics) == |docs| <==> forall i :: 0 <= i < |docs| ==> Relevant(docs[i], topics)
    ensures RelevantCount(docs, topics) == 0 <==> forall i :: 0 <= i < |docs| ==> !Relevant(docs[i], topics)
  {
    if |docs| > 0 {
      var init := docs[..|docs| - 1];
      RelevantCountExtremes(init, topics);
      assert forall i :: 0 <= i < |init| ==> init[i] == docs[i];
    }
  }

  // ---------------------------------------------------------------- precision at k

  /** The facts about a count over a positive total that the metrics rely on. */
  lemma RatioFacts(n: nat, d: nat)
    requires 0 < d && n <= d
    ensures 0.0 <= n as real / d as real <= 1.0
    ensures n as real / d as real == 1.0 <==> n == d
    ensures n as real / d as real == 0.0 <==> n == 0
  {
    var r := n as real / d as real;
    assert r * d as real == n as real;
  }

  /** Precision at `k`: the relevant share of the first `k` results, over `k` even when fewer exist. */
  function PrecisionAtK(results: seq<Doc>, topics: seq<string>, k: nat): real
  {
    if |results| == 0 || k == 0 then 0.0
    else (RelevantCount(Sorting.Take(results, k), topics) as real) / (k as real)
  }

  /** The counting loop over the first `k` results. */
  method CalculatePrecisionAtK(results: seq<Doc>, topics: seq<string>, k: nat) returns (p: real)
    ensures p == PrecisionAtK(results, topics, k)
  {
    if |results| == 0 || k == 0 {
      return 0.0;
    }
    var top := Sorting.Take(results, k);
    var relevantCount := 0;
    var i := 0;
    while i < |top|
      invariant 0 <= i <= |top|
      invariant relevantCount == RelevantCount(top[..i], topics)
    {
      assert top[..i + 1][..i] == top[..i];
      if MentionsAny(DocText(top[i]), topics) {
        relevantCount := relevantCount + 1;
      }
      i := i + 1;
    }
    assert top[..i] == top;
    p := relevantCount as real / k as real;
  }

  /**
   * Precision lies in [0, 1]; it is 1 exactly when at least `k` results exist
   * and the first `k` are all relevant, and below 1 whenever fewer than `k`
   * results exist; it is 0 exactly when there are no results, `k` is 0, or
   * none of the first `k` is relevant.
   */
  lemma PrecisionBounds(results: seq<Doc>, topics: seq<string>, k: nat)
    ensures 0.0 <= PrecisionAtK(results, topics, k) <= 1.0
    ensures PrecisionAtK(results, topics, k) == 1.0 <==>
      0 < k <= |results| && forall i :: 0 <= i < k ==> Relevant(results[i], topics)
    ensures |results| < k ==> PrecisionAtK(results, topics, k) < 1.0
    ensures PrecisionAtK(results, topics, k) == 0.0 <==>
      |results| == 0 || k == 0 || forall i :: 0 <= i < |results| && i < k ==> !Relevant(results[i], topics)
  {
    var top := Sorting.Take(results, k);
    RelevantCountExtremes(top, topics);
    if |results| > 0 && k > 0 {
      RatioFacts(RelevantCount(top, topics), k);
      assert forall i :: 0 <= i < |top| ==> top[i] == results[i];
    }
  }

  // ---------------------------------------------------------------- topic coverage

  /** Every result's lower-cased text, joined by spaces. */
  function AllContent(results: seq<Doc>): string { Text.Join(Sorting.Map(results, DocText), " ") }

  /** The number of topics that occur in `content`. */
  function CoveredCount(content: string, topics: seq<string>): (n: nat)
    ensures n <= |topics|
  {
    if |topics| == 0 then 0
    else (if Mentions(content, topics[0]) then 1 else 0) + CoveredCount(content, topics[1..])
  }

  /** The covered share of the expected topics; 1 when none are expected. */
  function TopicCoverage(results: seq<Doc>, topics: seq<string>): (c: real)
    ensures 0.0 <= c <= 1.0
  {
    if |topics| == 0 then 1.0
    else CoveredCount(AllContent(results), topics) as real / |topics| as real
  }

  lemma {:induction false} CoveredCountAll(content: string, topics: seq<string>)
    ensures CoveredCount(content, topics) == |topics| <==> forall j :: 0 <= j < |topics| ==> Mentions(content, topics[j])
  {
    if |topics| > 0 {
      CoveredCountAll(content, topics[1..]);
      assert forall j :: 0 < j < |topics| ==> topics[1..][j - 1] == topics[j];
    }
  }

  lemma {:induction false} CoveredCountPositive(content: string, topics: seq<string>, j: nat)
    requires j < |topics| && Mentions(content, topics[j])
    ensures CoveredCount(content, topics) > 0
  {
    if j > 0 {
      CoveredCountPositive(content, topics[1..], j - 1);
    }
  }

  /** Coverage is 1 exactly when every expected topic occurs in the joined text. */
  lemma CoverageFull(results: seq<Doc>, topics: seq<string>)
    ensures TopicCoverage(results, topics) == 1.0 <==>
      forall j :: 0 <= j < |topics| ==> Mentions(AllContent(results), topics[j])
  {
    if |topics| > 0 {
      CoveredCountAll(AllContent(results), topics);
      RatioFacts(CoveredCount(AllContent(results), topics), |topics|);
    }
  }

  /** A topic that one result mentions is covered. */
  lemma ResultTopicCovered(results: seq<Doc>, i: nat, topic: string)
    requires i < |results| && Mentions(DocText(results[i]), topic)
    ensures Mentions(AllContent(results), topic)
  {
    var texts := Sorting.Map(results, DocText);
    Text.JoinIncludesElement(texts, " ", i);
    Text.IncludesTrans(AllContent(results), DocText(results[i]), Text.Lower(topic));
  }

  /** Some relevant document among the first `k` means some topic is covered. */
  lemma PrecisionImpliesCoverage(results: seq<Doc>, topics: seq<string>, k: nat)
    requires PrecisionAtK(results, topics, k) > 0.0
    ensures TopicCoverage(results, topics) > 0.0
  {
    PrecisionBounds(results, topics, k);
    var i :| 0 <= i < |results| && i < k && Relevant(results[i], topics);
    MentionsAnyIff(DocText(results[i]), topics);
    var j :| 0 <= j < |topics| && Mentions(DocText(results[i]), topics[j]);
    ResultTopicCovered(results, i, topics[j]);
    CoveredCountPositive(AllContent(results), topics, j);
    RatioFacts(CoveredCount(AllContent(results), topics), |topics|);
  }

  // ---------------------------------------------------------------- hallucination risk

  /** `xs.reduce((sum, x) => sum + x, 0)` over exact reals. */
  function Sum(xs: seq<real>): real
  {
    if |xs| == 0 then 0.0 else Sum(xs[..|xs| - 1]) + xs[|xs| - 1]
  }

  /** A lower bound on every element bounds the sum from below. */
  lemma {:induction false} SumAtLeast(xs: seq<real>, lo: real)
    requires forall i :: 0 <= i < |xs| ==> lo <= xs[i]
    ensures |xs| as real * lo <= Sum(xs)
  {
    if |xs| > 0 {
      var init := xs[..|xs| - 1];
      assert forall i :: 0 <= i < |init| ==> init[i] == xs[i];
      SumAtLeast(init, lo);
    }
  }

  /** An upper bound on every element bounds the sum from above. */
  lemma {:induction false} SumAtMost(xs: seq<real>, hi: real)
    requires forall i :: 0 <= i < |xs| ==> xs[i] <= hi
    ensures Sum(xs) <= |xs| as real * hi
  {
    if |xs| > 0 {
      var init := xs[..|xs| - 1];
      assert forall i :: 0 <= i < |init| ==> init[i] == xs[i];
      SumAtMost(init, hi);
    }
  }

  /** A strict upper bound on every element is a strict bound on a non-empty sum. */
  lemma {:induction false} SumBelow(xs: seq<real>, hi: real)
    requires |xs| > 0 && forall i :: 0 <= i < |xs| ==> xs[i] < hi
    ensures Sum(xs) < |xs| as real * hi
  {
    var init := xs[..|xs| - 1];
    assert forall i :: 0 <= i < |init| ==> init[i] == xs[i];
    if |init| > 0 {
      SumBelow(init, hi);
    }
  }

  /** Dividing by a positive count keeps a comparison with a bound. */
  lemma DivideBound(s: real, n: real, c: real)
    requires n > 0.0
    ensures s >= n * c ==> s / n >= c
    ensures s <= n * c ==> s / n <= c
    ensures s < n * c ==> s / n < c
  {
    var q := s / n;
    assert s == q * n;
  }

  function Scores(results: seq<Doc>): (r: seq<real>)
    ensures |r| == |results| && forall i :: 0 <= i < |results| ==> r[i] == results[i].score
  {
    seq(|results|, i requires 0 <= i < |results| => results[i].score)
  }

  /** The mean score of a non-empty result list. */
  function AverageScore(results: seq<Doc>): real
    requires |results| > 0
  {
    Sum(Scores(results)) / |results| as real
  }

  /** The risk ladder on the average score. */
  function RiskOfAverage(avg: real): real
  {
    if avg < 0.3 then 0.8 else if avg < 0.5 then 0.5 else if avg < 0.7 then 0.3 else 0.1
  }

  /** 1 with no results, otherwise the ladder on the average score. */
  function HallucinationRisk(results: seq<Doc>): (r: real)
    ensures 0.1 <= r <= 1.0
    ensures r == 1.0 <==> |results| == 0
  {
    if |results| == 0 then 1.0 else RiskOfAverage(AverageScore(results))
  }

  /** A higher average never raises the risk. */
  lemma RiskMonotone(a: real, b: real)
    requires a <= b
    ensures RiskOfAverage(b) <= RiskOfAverage(a)
  {
  }

  /** Uniformly strong results carry the lowest risk and uniformly weak ones the highest short of none. */
  lemma RiskOfUniformScores(results: seq<Doc>)
    requires |results| > 0
    ensures (forall i :: 0 <= i < |results| ==> results[i].score >= 0.7) ==> HallucinationRisk(results) == 0.1
    ensures (forall i :: 0 <= i < |results| ==> results[i].score < 0.3) ==> HallucinationRisk(results) == 0.8
  {
    var s := Scores(results);
    DivideBound(Sum(s), |s| as real, 0.7);
    DivideBound(Sum(s), |s| as real, 0.3);
    if forall i :: 0 <= i < |results| ==> results[i].score >= 0.7 {
      SumAtLeast(s, 0.7);
    }
    if forall i :: 0 <= i < |results| ==> results[i].score < 0.3 {
      SumBelow(s, 0.3);
    }
  }

  // ---------------------------------------------------------------- one query

  datatype EvaluationQuery = EvaluationQuery(id: string, query: string, industry: string,
                                             expectedTopics: seq<string>, minScore: real)

  datatype EvaluationResult = EvaluationResult(
    queryId: string, query: string, industry: string, resultsCount: nat,
    topScore: real, avgScore: real, latencyMs: nat,
    precisionAt3: real, precisionAt5: real, topicCoverage: real,
    hallucinationRisk: real, passed: bool)

  /** The retriever's parameters for an evaluation: five results, minimum score 0.1. */
  const EvaluationOptions := KB.RetrievalOptions(Some(5), Some(0.1), None)

  const MaxLatencyMs := 1000

  /** The pass criterion of one query. */
  predicate Passes(latency: nat, topScore: real, minScore: real, precision3: real, coverage: real)
  {
    latency <= MaxLatencyMs && topScore >= minScore && precision3 >= 0.5 && coverage >= 0.5
  }

  /**
   * The record of one query given what the retriever did and the elapsed
   * milliseconds: the metrics of its results, or the all-zero record with
   * risk 1 when the retriever threw.
   */
  function Record(q: EvaluationQuery, outcome: Result<seq<Doc>, string>, latency: nat): EvaluationResult
  {
    match outcome
    case Failure(_) =>
      EvaluationResult(q.id, q.query, q.industry, 0, 0.0, 0.0, latency, 0.0, 0.0, 0.0, 1.0, false)
    case Success(results) =>
      var p3 := PrecisionAtK(results, q.expectedTopics, 3);
      var cov := TopicCoverage(results, q.expectedTopics);
      var top := if |results| > 0 then results[0].score else 0.0;
      EvaluationResult(q.id, q.query, q.industry, |results|, top,
                       if |results| > 0 then AverageScore(results) else 0.0, latency,
                       p3, PrecisionAtK(results, q.expectedTopics, 5), cov,
                       HallucinationRisk(results), Passes(latency, top, q.minScore, p3, cov))
  }

  /** `evaluateQuery`, with the retriever and the elapsed time as parameters. */
  method EvaluateQuery(q: EvaluationQuery, retrieve: (string, string, KB.RetrievalOptions) -> Result<seq<Doc>, string>,
                       latency: nat)
    returns (r: EvaluationResult)
    ensures r == Record(q, retrieve(q.industry, q.query, EvaluationOptions), latency)
  {
    var outcome := retrieve(q.industry, q.query, EvaluationOptions);
    if outcome.Failure? {
      return EvaluationResult(q.id, q.query, q.industry, 0, 0.0, 0.0, latency, 0.0, 0.0, 0.0, 1.0, false);
    }
    var results := outcome.value;
    var precision3 := CalculatePrecisionAtK(results, q.expectedTopics, 3);
    var precision5 := CalculatePrecisionAtK(results, q.expectedTopics, 5);
    var coverage := TopicCoverage(results, q.expectedTopics);
    var risk := HallucinationRisk(results);
    var topScore := if |results| > 0 then results[0].score else 0.0;
    var avgScore := if |results| > 0 then AverageScore(results) else 0.0;
    var passed := Passes(latency, topScore, q.minScore, precision3, coverage);
    r := EvaluationResult(q.id, q.query, q.industry, |results|, topScore, avgScore, latency,
                          precision3, precision5, coverage, risk, passed);
  }

  /**
   * A passing query was answered within a second, with at least two relevant
   * documents among the first three, a top score at the query's minimum,
   * some covered topic and a risk below 1; a thrown retrieval never passes.
   */
  lemma PassedMeansEvidence(q: EvaluationQuery, outcome: Result<seq<Doc>, string>, latency: nat)
    ensures var r := Record(q, outcome, latency);
      r.passed ==>
        outcome.Success? && latency <= 1000 && r.topScore >= q.minScore
        && RelevantCount(Sorting.Take(outcome.value, 3), q.expectedTopics) >= 2
        && r.resultsCount >= 2 && r.topicCoverage > 0.0 && r.hallucinationRisk < 1.0
    ensures outcome.Failure? ==> !Record(q, outcome, latency).passed
  {
    var r := Record(q, outcome, latency);
    if r.passed {
      var results := outcome.value;
      var n := RelevantCount(Sorting.Take(results, 3), q.expectedTopics);
      assert n as real / 3.0 >= 0.5;
      PrecisionImpliesCoverage(results, q.expectedTopics, 3);
    }
  }

  /** Every metric of a record lies in [0, 1], and the pass flag is the criterion on its own fields. */
  lemma RecordInvariants(q: EvaluationQuery, outcome: Result<seq<Doc>, string>, latency: nat)
    ensures var r := Record(q, outcome, latency);
      0.0 <= r.precisionAt3 <= 1.0 && 0.0 <= r.precisionAt5 <= 1.0
      && 0.0 <= r.topicCoverage <= 1.0 && 0.0 <= r.hallucinationRisk <= 1.0
      && r.latencyMs == latency
      && (r.passed <==> outcome.Success? && Passes(r.latencyMs, r.topScore, q.minScore, r.precisionAt3, r.topicCoverage))
  {
    if outcome.Success? {
      PrecisionBounds(outcome.value, q.expectedTopics, 3);
      PrecisionBounds(outcome.value, q.expectedTopics, 5);
    }
  }

  // ---------------------------------------------------------------- summary

  /**
   * `xs.reduce(...) / xs.length`; `None` stands for the NaN that dividing by
   * an empty list gives.
   */
  function Average(xs: seq<real>): (r: Option<real>)
    ensures r.Some? <==> |xs| > 0
  {
    if |xs| == 0 then None else Some(Sum(xs) / |xs| as real)
  }

  /** An average of values in [lo, hi] lies in [lo, hi]. */
  lemma AverageBounds(xs: seq<real>, lo: real, hi: real)
    requires forall i :: 0 <= i < |xs| ==> lo <= xs[i] <= hi
    ensures Average(xs).Some? ==> lo <= Average(xs).value <= hi
  {
    if |xs| > 0 {
      SumAtLeast(xs, lo);
      SumAtMost(xs, hi);
      DivideBound(Sum(xs), |xs| as real, lo);
      DivideBound(Sum(xs), |xs| as real, hi);
    }
  }

  /** Comparisons against NaN are false. */
  predicate AtLeast(x: Option<real>, c: real) { x.Some? && x.value >= c }
  predicate AtMost(x: Option<real>, c: real) { x.Some? && x.value <= c }
  predicate Below(x: Option<real>, c: real) { x.Some? && x.value < c }
  predicate Above(x: Option<real>, c: real) { x.Some? && x.value > c }

  datatype Grade = A | B | C | D | F

  function Letter(g: Grade): string
  {
    match g
    case A => "A" case B => "B" case C => "C" case D => "D" case F => "F"
  }

  function Rank(g: Grade): nat
  {
    match g
    case A => 4 case B => 3 case C => 2 case D => 1 case F => 0
  }

  /** The grade ladder on the pass rate and the mean latency. */
  function PerformanceGrade(passRate: Option<real>, avgLatency: Option<real>): Grade
  {
    if AtLeast(passRate, 0.9) && AtMost(avgLatency, 300.0) then A
    else if AtLeast(passRate, 0.8) && AtMost(avgLatency, 500.0) then B
    else if AtLeast(passRate, 0.7) && AtMost(avgLatency, 800.0) then C
    else if AtLeast(passRate, 0.6) then D
    else F
  }

  /** A higher pass rate and a lower latency never give a worse grade. */
  lemma GradeMonotone(p1: real, l1: real, p2: real, l2: real)
    requires p1 <= p2 && l2 <= l1
    ensures Rank(PerformanceGrade(Some(p1), Some(l1))) <= Rank(PerformanceGrade(Some(p2), Some(l2)))
  {
  }

  /**
   * D or better exactly when at least 60% pass; every grade above F bounds
   * the pass rate from below and (above D) the latency from above.
   */
  lemma GradeThresholds(passRate: Option<real>, avgLatency: Option<real>)
    ensures Rank(PerformanceGrade(passRate, avgLatency)) >= 1 <==> AtLeast(passRate, 0.6)
    ensures PerformanceGrade(passRate, avgLatency) == A ==> AtLeast(passRate, 0.9) && AtMost(avgLatency, 300.0)
    ensures Rank(PerformanceGrade(passRate, avgLatency)) >= 2 ==> AtLeast(passRate, 0.7) && AtMost(avgLatency, 800.0)
    ensures passRate.None? ==> PerformanceGrade(passRate, avgLatency) == F
  {
  }

  datatype Advice = CacheQueries | ImproveChunking | ExpandCoverage | ReviewFailures

  function AdviceText(a: Advice): string
  {
    match a
    case CacheQueries => "Consider caching frequent queries or optimizing embedding generation"
    case ImproveChunking => "Improve document chunking strategy or adjust similarity thresholds"
    case ExpandCoverage => "Expand knowledge base coverage or refine document topics"
    case ReviewFailures => "Review failed queries and adjust retrieval parameters"
  }

  /** The four advice items in the order they are considered. */
  const AdviceOrder: seq<Advice> := [CacheQueries, ImproveChunking, ExpandCoverage, ReviewFailures]

  /** The condition under which each item is given. */
  predicate Warranted(a: Advice, avgLatency: Option<real>, avgPrecision3: Option<real>,
                      avgCoverage: Option<real>, passRate: Option<real>)
  {
    match a
    case CacheQueries => Above(avgLatency, 500.0)
    case ImproveChunking => Below(avgPrecision3, 0.7)
    case ExpandCoverage => Below(avgCoverage, 0.6)
    case ReviewFailures => Below(passRate, 0.8)
  }

  /** The warranted items, kept in the fixed order. */
  function Advise(avgLatency: Option<real>, avgPrecision3: Option<real>,
                  avgCoverage: Option<real>, passRate: Option<real>): seq<Advice>
  {
    Keep(AdviceOrder, avgLatency, avgPrecision3, avgCoverage, passRate)
  }

  function Keep(xs: seq<Advice>, avgLatency: Option<real>, avgPrecision3: Option<real>,
                avgCoverage: Option<real>, passRate: Option<real>): seq<Advice>
  {
    if |xs| == 0 then []
    else
      var last := xs[|xs| - 1];
      Keep(xs[..|xs| - 1], avgLatency, avgPrecision3, avgCoverage, passRate)
      + (if Warranted(last, avgLatency, avgPrecision3, avgCoverage, passRate) then [last] else [])
  }

  /** The pushes of the recommendation list. */
  method Recommendations(avgLatency: Option<real>, avgPrecision3: Option<real>,
                         avgCoverage: Option<real>, passRate: Option<real>)
    returns (recs: seq<Advice>)
    ensures recs == Advise(avgLatency, avgPrecision3, avgCoverage, passRate)
  {
    ghost var l, p3, c, r := avgLatency, avgPrecision3, avgCoverage, passRate;
    ghost var o := AdviceOrder;
    recs := [];
    assert recs == Keep(o[..0], l, p3, c, r);
    if Above(avgLatency, 500.0) {
      recs := recs + [CacheQueries];
    }
    assert o[..1][..0] == o[..0];
    assert recs == Keep(o[..1], l, p3, c, r);
    if Below(avgPrecision3, 0.7) {
      recs := recs + [ImproveChunking];
    }
    assert o[..2][..1] == o[..1];
    assert recs == Keep(o[..2], l, p3, c, r);
    if Below(avgCoverage, 0.6) {
      recs := recs + [ExpandCoverage];
    }
    assert o[..3][..2] == o[..2];
    assert recs == Keep(o[..3], l, p3, c, r);
    if Below(passRate, 0.8) {
      recs := recs + [ReviewFailures];
    }
    assert o[..4][..3] == o[..3];
    assert o[..4] == o;
  }

  /** Position in the fixed order. */
  function Position(a: Advice): nat
  {
    match a
    case CacheQueries => 0 case ImproveChunking => 1 case ExpandCoverage => 2 case ReviewFailures => 3
  }

  /** Keeping preserves exactly the warranted members. */
  lemma {:induction false} KeepMembers(xs: seq<Advice>, avgLatency: Option<real>, avgPrecision3: Option<real>,
                                       avgCoverage: Option<real>, passRate: Option<real>)
    ensures forall a :: a in Keep(xs, avgLatency, avgPrecision3, avgCoverage, passRate) <==>
      a in xs && Warranted(a, avgLatency, avgPrecision3, avgCoverage, passRate)
  {
    if |xs| > 0 {
      var init := xs[..|xs| - 1];
      KeepMembers(init, avgLatency, avgPrecision3, avgCoverage, passRate);
      assert xs == init + [xs[|xs| - 1]];
    }
  }

  predicate Increasing(xs: seq<Advice>)
  {
    forall i, j :: 0 <= i < j < |xs| ==> Position(xs[i]) < Position(xs[j])
  }

  /** Keeping a sequence in the fixed order leaves it in that order. */
  lemma {:induction false} KeepOrdered(xs: seq<Advice>, avgLatency: Option<real>, avgPrecision3: Option<real>,
                                       avgCoverage: Option<real>, passRate: Option<real>)
    requires Increasing(xs)
    ensures Increasing(Keep(xs, avgLatency, avgPrecision3, avgCoverage, passRate))
  {
    if |xs| > 0 {
      var init := xs[..|xs| - 1];
      var last := xs[|xs| - 1];
      var kept := Keep(init, avgLatency, avgPrecision3, avgCoverage, passRate);
      assert Increasing(init) by {
        forall i, j | 0 <= i < j < |init| ensures Position(init[i]) < Position(init[j]) {
          assert init[i] == xs[i] && init[j] == xs[j];
        }
      }
      KeepOrdered(init, avgLatency, avgPrecision3, avgCoverage, passRate);
      KeepMembers(init, avgLatency, avgPrecision3, avgCoverage, passRate);
      forall b | b in kept ensures Position(b) < Position(last) {
        var j :| 0 <= j < |init| && init[j] == b;
        assert xs[j] == b;
      }
      var r := kept + (if Warranted(last, avgLatency, avgPrecision3, avgCoverage, passRate) then [last] else []);
      forall i, j | 0 <= i < j < |r| ensures Position(r[i]) < Position(r[j]) {
        if j == |kept| {
          assert r[i] in kept;
        }
      }
    }
  }

  /** Each item is present exactly when warranted, at most once, and in the fixed order. */
  lemma AdviseExactly(avgLatency: Option<real>, avgPrecision3: Option<real>,
                      avgCoverage: Option<real>, passRate: Option<real>)
    ensures var r := Advise(avgLatency, avgPrecision3, avgCoverage, passRate);
      (forall a :: a in r <==> Warranted(a, avgLatency, avgPrecision3, avgCoverage, passRate))
      && Increasing(r)
  {
    KeepMembers(AdviceOrder, avgLatency, avgPrecision3, avgCoverage, passRate);
    KeepOrdered(AdviceOrder, avgLatency, avgPrecision3, avgCoverage, passRate);
    forall a ensures a in AdviceOrder {
      assert AdviceOrder[Position(a)] == a;
    }
  }

  /** No advice at all means every average met its bar. */
  lemma NoAdviceMeansHealthy(avgLatency: Option<real>, avgPrecision3: Option<real>,
                             avgCoverage: Option<real>, passRate: Option<real>)
    requires |Advise(avgLatency, avgPrecision3, avgCoverage, passRate)| == 0
    requires avgLatency.Some? && avgPrecision3.Some? && avgCoverage.Some? && passRate.Some?
    ensures avgLatency.value <= 500.0 && avgPrecision3.value >= 0.7
    ensures avgCoverage.value >= 0.6 && passRate.value >= 0.8
  {
    AdviseExactly(avgLatency, avgPrecision3, avgCoverage, passRate);
    assert !(CacheQueries in Advise(avgLatency, avgPrecision3, avgCoverage, passRate));
    assert !(ImproveChunking in Advise(avgLatency, avgPrecision3, avgCoverage, passRate));
    assert !(ExpandCoverage in Advise(avgLatency, avgPrecision3, avgCoverage, passRate));
    assert !(ReviewFailures in Advise(avgLatency, avgPrecision3, avgCoverage, passRate));
  }

  datatype BenchmarkSummary = BenchmarkSummary(
    totalQueries: nat, avgLatencyMs: Option<real>, avgPrecisionAt3: Option<real>,
    avgPrecisionAt5: Option<real>, avgTopicCoverage: Option<real>, passRate: Option<real>,
    grade: Grade, recommendations: seq<string>)

  function Latencies(rs: seq<EvaluationResult>): (r: seq<real>)
    ensures |r| == |rs| && forall i :: 0 <= i < |rs| ==> r[i] == rs[i].latencyMs as real
  {
    seq(|rs|, i requires 0 <= i < |rs| => rs[i].latencyMs as real)
  }

  function Precisions3(rs: seq<EvaluationResult>): (r: seq<real>)
    ensures |r| == |rs| && forall i :: 0 <= i < |rs| ==> r[i] == rs[i].precisionAt3
  {
    seq(|rs|, i requires 0 <= i < |rs| => rs[i].precisionAt3)
  }

  function Precisions5(rs: seq<EvaluationResult>): (r: seq<real>)
    ensures |r| == |rs| && forall i :: 0 <= i < |rs| ==> r[i] == rs[i].precisionAt5
  {
    seq(|rs|, i requires 0 <= i < |rs| => rs[i].precisionAt5)
  }

  function Coverages(rs: seq<EvaluationResult>): (r: seq<real>)
    ensures |r| == |rs| && forall i :: 0 <= i < |rs| ==> r[i] == rs[i].topicCoverage
  {
    seq(|rs|, i requires 0 <= i < |rs| => rs[i].topicCoverage)
  }

  /** The number of passing records. */
  function PassCount(rs: seq<EvaluationResult>): (n: nat)
    ensures n <= |rs|
  {
    if |rs| == 0 then 0 else PassCount(rs[..|rs| - 1]) + (if rs[|rs| - 1].passed then 1 else 0)
  }

  lemma {:induction false} PassCountAll(rs: seq<EvaluationResult>)
    ensures PassCount(rs) == |rs| <==> forall i :: 0 <= i < |rs| ==> rs[i].passed
  {
    if |rs| > 0 {
      var init := rs[..|rs| - 1];
      PassCountAll(init);
      assert forall i :: 0 <= i < |init| ==> init[i] == rs[i];
    }
  }

  function PassRate(rs: seq<EvaluationResult>): Option<real>
  {
    if |rs| == 0 then None else Some(PassCount(rs) as real / |rs| as real)
  }

  /** The summary statistics, grade and recommendations of a list of records. */
  function Summarize(rs: seq<EvaluationResult>): BenchmarkSummary
  {
    var latency := Average(Latencies(rs));
    var p3 := Average(Precisions3(rs));
    var cov := Average(Coverages(rs));
    var rate := PassRate(rs);
    BenchmarkSummary(|rs|, latency, p3, Average(Precisions5(rs)), cov, rate,
                     PerformanceGrade(rate, latency),
                     Sorting.Map(Advise(latency, p3, cov, rate), AdviceText))
  }

  /**
   * Over records whose metrics lie in [0, 1] (as every record does), the
   * averages and the pass rate lie in [0, 1]; the pass rate is 1 exactly when
   * every query passed; an empty run has no averages and grade F.
   */
  lemma SummaryBounds(rs: seq<EvaluationResult>)
    requires forall i :: 0 <= i < |rs| ==> 0.0 <= rs[i].precisionAt3 <= 1.0
    requires forall i :: 0 <= i < |rs| ==> 0.0 <= rs[i].precisionAt5 <= 1.0
    requires forall i :: 0 <= i < |rs| ==> 0.0 <= rs[i].topicCoverage <= 1.0
    ensures var s := Summarize(rs);
      (s.avgPrecisionAt3.Some? ==> 0.0 <= s.avgPrecisionAt3.value <= 1.0)
      && (s.avgPrecisionAt5.Some? ==> 0.0 <= s.avgPrecisionAt5.value <= 1.0)
      && (s.avgTopicCoverage.Some? ==> 0.0 <= s.avgTopicCoverage.value <= 1.0)
      && (s.passRate.Some? ==> 0.0 <= s.passRate.value <= 1.0)
      && (s.passRate == Some(1.0) <==> |rs| > 0 && forall i :: 0 <= i < |rs| ==> rs[i].passed)
      && (|rs| == 0 ==> s.avgLatencyMs.None? && s.grade == F)
  {
    AverageBounds(Precisions3(rs), 0.0, 1.0);
    AverageBounds(Precisions5(rs), 0.0, 1.0);
    AverageBounds(Coverages(rs), 0.0, 1.0);
    PassCountAll(rs);
    if |rs| > 0 {
      RatioFacts(PassCount(rs), |rs|);
    }
  }

  /**
   * The evaluation run: every query is evaluated in order, with its own
   * elapsed time, and the records are summarised.
   */
  method RunFullEvaluation(queries: seq<EvaluationQuery>,
                           retrieve: (string, string, KB.RetrievalOptions) -> Result<seq<Doc>, string>,
                           latencies: seq<nat>)
    returns (results: seq<EvaluationResult>, summary: BenchmarkSummary)
    requires |latencies| == |queries|
    ensures |results| == |queries|
    ensures forall i :: 0 <= i < |queries| ==>
      results[i] == Record(queries[i], retrieve(queries[i].industry, queries[i].query, EvaluationOptions), latencies[i])
    ensures summary == Summarize(results)
  {
    results := [];
    var i := 0;
    while i < |queries|
      invariant 0 <= i <= |queries| && |results| == i
      invariant forall j :: 0 <= j < i ==>
        results[j] == Record(queries[j], retrieve(queries[j].industry, queries[j].query, EvaluationOptions), latencies[j])
    {
      var r := EvaluateQuery(queries[i], retrieve, latencies[i]);
      results := results + [r];
      i := i + 1;
    }
    var latency := Average(Latencies(results));
    var p3 := Average(Precisions3(results));
    var cov := Average(Coverages(results));
    var rate := PassRate(results);
    var grade := PerformanceGrade(rate, latency);
    var recs := Recommendations(latency, p3, cov, rate);
    summary := BenchmarkSummary(|results|, latency, p3, Average(Precisions5(results)), cov, rate,
                                grade, Sorting.Map(recs, AdviceText));
  }

  /** A run's summary satisfies the bounds, since every record does. */
  lemma RunSummaryBounds(queries: seq<EvaluationQuery>, outcomes: seq<Result<seq<Doc>, string>>,
                         latencies: seq<nat>, rs: seq<EvaluationResult>)
    requires |outcomes| == |queries| && |latencies| == |queries| && |rs| == |queries|
    requires forall i :: 0 <= i < |queries| ==> rs[i] == Record(queries[i], outcomes[i], latencies[i])
    ensures var s := Summarize(rs);
      (s.avgPrecisionAt3.Some? ==> 0.0 <= s.avgPrecisionAt3.value <= 1.0)
      && (s.avgTopicCoverage.Some? ==> 0.0 <= s.avgTopicCoverage.value <= 1.0)
  {
    forall i | 0 <= i < |rs|
      ensures 0.0 <= rs[i].precisionAt3 <= 1.0 && 0.0 <= rs[i].precisionAt5 <= 1.0
      ensures 0.0 <= rs[i].topicCoverage <= 1.0
    {
      RecordInvariants(queries[i], outcomes[i], latencies[i]);
    }
    SummaryBounds(rs);
  }
}
