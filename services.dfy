// Matching of the centre's services against a business profile: eligibility
// gates, an additive match score capped at 100, a priority bucket, a call to
// action, and the top five recommendations.
module ServiceRecommendation {
  import opened Wrappers
  import Text
  import Sorting
  import opened OpportunityAssessment

  datatype ServiceType = Consultation | Course | Program | Product
  datatype ServiceCost = Free | LowCost | MediumCost | HighCost
  datatype DeliveryMode = Online | InPerson | Hybrid

  /** Absent lists and thresholds impose nothing; a zero threshold is falsy and imposes nothing too. */
  datatype Criteria = Criteria(
    minImpactScore: Option<int>,
    minReadinessScore: Option<int>,
    maxComplexityScore: Option<int>,
    businessSizes: Option<seq<Size>>,
    industries: Option<seq<Industry>>,
    digitalMaturityLevels: Option<seq<Maturity>>,
    technicalCapacityLevels: Option<seq<Capacity>>)

  datatype Service = Service(
    id: string,
    name: string,
    description: string,
    kind: ServiceType,
    category: string,
    duration: Option<string>,
    cost: ServiceCost,
    targetAudience: seq<string>,
    prerequisites: seq<string>,
    deliveryMode: DeliveryMode,
    bookingUrl: Option<string>,
    infoUrl: Option<string>,
    eligibilityCriteria: Criteria,
    tags: seq<string>)

  datatype Priority = HighPriority | MediumPriority | LowPriority

  datatype Recommendation = Recommendation(
    service: Service,
    matchScore: int,
    rationale: string,
    priority: Priority,
    ctaText: string,
    ctaUrl: string)

  /** An assessed opportunity as handed to the engine: its score may be missing. */
  datatype Assessed = Assessed(opportunity: Opportunity, score: Option<Score>)

  // ---------------------------------------------------------------- catalogue

  const AllSizes: seq<Size> := [Small, MediumSize]
  const AllIndustries: seq<Industry> := [Agriculture, CleanEnergy, Medical, EnablingCapabilities]

  const AiStudioProgram := Service(
    "ai-studio-program", "AI Studio Program",
    "8-week intensive program for custom AI solution development with dedicated support",
    Program, "Custom Development", Some("8 weeks"), Free,
    ["SMEs ready for custom AI development", "Businesses with clear AI use cases"],
    ["Dedicated team member", "Clear business objectives", "Technical readiness"],
    Hybrid, Some("https://smec.ai/programs/ai-studio/apply"), Some("https://smec.ai/programs/ai-studio"),
    Criteria(Some(4), Some(3), None, Some(AllSizes), None, Some([Developing, Advanced]), Some([Limited, Strong])),
    ["custom-development", "intensive", "high-impact", "mentorship"])
  const OneOnOneConsultation := Service(
    "one-on-one-consultation", "One-on-One AI Consultation",
    "Personalized guidance session with AI experts to assess your specific needs",
    Consultation, "Assessment & Planning", Some("60-90 minutes"), Free,
    ["All SMEs exploring AI", "Businesses needing strategic guidance"],
    ["Basic business overview prepared"],
    Online, Some("https://smec.ai/consultations/book"), Some("https://smec.ai/consultations"),
    Criteria(None, None, None, Some(AllSizes), Some(AllIndustries), None, None),
    ["consultation", "assessment", "strategic", "personalized"])
  const AiFundamentalsCourse := Service(
    "ai-fundamentals-course", "AI Fundamentals for SMEs",
    "Comprehensive course covering AI basics, business applications, and implementation strategies",
    Course, "Education & Training", Some("4 weeks"), Free,
    ["Business owners", "Managers", "Team leaders"],
    ["No technical background required"],
    Online, Some("https://smec.ai/courses/fundamentals/enroll"), Some("https://smec.ai/courses/fundamentals"),
    Criteria(None, None, None, Some(AllSizes), None, Some([Basic, Developing, Advanced]), None),
    ["education", "fundamentals", "business-focused", "self-paced"])
  const IndustryWorkshop := Service(
    "industry-specific-workshop", "Industry-Specific AI Workshop",
    "Targeted workshops focusing on AI applications in your specific industry sector",
    Course, "Industry Training", Some("1-2 days"), Free,
    ["Industry professionals", "Sector-specific teams"],
    ["Industry experience helpful"],
    Hybrid, Some("https://smec.ai/workshops/industry/book"), Some("https://smec.ai/workshops/industry"),
    Criteria(None, None, None, Some(AllSizes), Some(AllIndustries), Some([Developing, Advanced]), None),
    ["workshop", "industry-specific", "practical", "networking"])
  const ProductsDirectory := Service(
    "ai-products-directory", "AI Products & Solutions Directory",
    "Curated marketplace of vetted AI solutions ready for SME implementation",
    Product, "Solution Discovery", None, Free,
    ["SMEs ready to implement", "Businesses seeking immediate solutions"],
    ["Clear budget and timeline"],
    Online, None, Some("https://smec.ai/products"),
    Criteria(None, Some(2), None, Some(AllSizes), None, Some([Developing, Advanced]), None),
    ["marketplace", "ready-solutions", "vetted", "implementation"])
  const ReadinessAssessment := Service(
    "technical-readiness-assessment", "Technical Readiness Assessment",
    "Comprehensive evaluation of your technical infrastructure and AI readiness",
    Consultation, "Technical Assessment", Some("2-3 hours"), Free,
    ["SMEs with technical questions", "Businesses planning implementation"],
    ["Access to current systems documentation"],
    Online, Some("https://smec.ai/assessments/technical/book"), Some("https://smec.ai/assessments/technical"),
    Criteria(None, None, None, Some(AllSizes), None, Some([Basic, Developing]), Some([NoCapacity, Limited])),
    ["assessment", "technical", "infrastructure", "readiness"])
  const FundingGuidance := Service(
    "grant-funding-guidance", "Grant & Funding Guidance",
    "Support in identifying and applying for AI implementation grants and funding opportunities",
    Consultation, "Financial Support", Some("45 minutes"), Free,
    ["SMEs seeking funding", "Businesses with budget constraints"],
    ["Business plan or project outline"],
    Online, Some("https://smec.ai/funding/guidance/book"), Some("https://smec.ai/funding/guidance"),
    Criteria(Some(3), None, None, Some(AllSizes), None, None, None),
    ["funding", "grants", "financial", "support"])

  const Services: seq<Service> := [
    AiStudioProgram, OneOnOneConsultation, AiFundamentalsCourse, IndustryWorkshop,
    ProductsDirectory, ReadinessAssessment, FundingGuidance
  ]

  // ---------------------------------------------------------------- eligibility

  /** A list criterion admits a value when it is absent or lists the value. */
  predicate Admits<T(==)>(list: Option<seq<T>>, x: T)
  {
    list.None? || x in list.value
  }

  /** A threshold takes part only when present and non-zero. */
  predicate Active(t: Option<int>)
  {
    t.Some? && t.value != 0
  }

  /** The score gates: a present, non-zero minimum or maximum that the scores violate. */
  predicate ViolatesScores(c: Criteria, s: Score)
  {
    (Active(c.minImpactScore) && s.impact < c.minImpactScore.value)
    || (Active(c.minReadinessScore) && s.readiness < c.minReadinessScore.value)
    || (Active(c.maxComplexityScore) && s.complexity > c.maxComplexityScore.value)
  }

  /** The gates in the order the engine tries them; the first failure decides. */
  function CheckEligibility(service: Service, profile: BusinessProfile, scores: Option<Score>): (ok: bool)
    ensures !ok <==>
      var c := service.eligibilityCriteria;
      !Admits(c.businessSizes, profile.size) || !Admits(c.industries, profile.industry)
      || !Admits(c.digitalMaturityLevels, profile.digitalMaturity)
      || !Admits(c.technicalCapacityLevels, profile.technicalCapacity)
      || (scores.Some? && ViolatesScores(c, scores.value))
  {
    var c := service.eligibilityCriteria;
    if c.businessSizes.Some? && profile.size !in c.businessSizes.value then false
    else if c.industries.Some? && profile.industry !in c.industries.value then false
    else if c.digitalMaturityLevels.Some? && profile.digitalMaturity !in c.digitalMaturityLevels.value then false
    else if c.technicalCapacityLevels.Some? && profile.technicalCapacity !in c.technicalCapacityLevels.value then false
    else if scores.Some? then
      var s := scores.value;
      if Active(c.minImpactScore) && s.impact < c.minImpactScore.value then false
      else if Active(c.minReadinessScore) && s.readiness < c.minReadinessScore.value then false
      else if Active(c.maxComplexityScore) && s.complexity > c.maxComplexityScore.value then false
      else true
    else true
  }

  // ---------------------------------------------------------------- match score

  function MaturityPoints(m: Maturity): int
  {
    match m case Advanced => 15 case Developing => 10 case Basic => 5
  }

  function CapacityPoints(c: Capacity): int
  {
    match c case Strong => 15 case Limited => 10 case NoCapacity => 5
  }

  /** The bonus for the service type, given the top opportunity's scores. */
  function TypePoints(kind: ServiceType, profile: BusinessProfile, s: Score): int
  {
    (if kind == Program && s.readiness >= 3 && s.impact >= 4 then 20 else 0)
    + (if kind == Consultation && s.readiness < 3 then 15 else 0)
    + (if kind == Course && profile.digitalMaturity == Basic then 15 else 0)
    + (if kind == Product && s.readiness >= 3 then 10 else 0)
  }

  /**
   * 0 for an ineligible service; otherwise 50 plus the maturity, capacity,
   * type, workshop and free-on-a-low-budget points, capped at 100.
   */
  function MatchScore(service: Service, profile: BusinessProfile, scores: Option<Score>): (r: int)
    ensures r == 0 <==> !CheckEligibility(service, profile, scores)
    ensures CheckEligibility(service, profile, scores) ==> 60 <= r <= 100
  {
    if !CheckEligibility(service, profile, scores) then 0
    else
      var score := 50 + MaturityPoints(profile.digitalMaturity) + CapacityPoints(profile.technicalCapacity)
        + (if scores.Some? then TypePoints(service.kind, profile, scores.value) else 0)
        + (if service.id == "industry-specific-workshop" then 10 else 0)
        + (if profile.budget == LowBudget && service.cost == Free then 5 else 0);
      if score < 100 then score else 100
  }

  /** The score only grows with the profile's maturity and capacity. */
  lemma MatchScoreMonotone(service: Service, p1: BusinessProfile, p2: BusinessProfile, scores: Option<Score>)
    requires p1.size == p2.size && p1.industry == p2.industry && p1.budget == p2.budget
    requires p1.digitalMaturity == p2.digitalMaturity
    requires CapacityPoints(p1.technicalCapacity) <= CapacityPoints(p2.technicalCapacity)
    requires CheckEligibility(service, p1, scores) && CheckEligibility(service, p2, scores)
    ensures MatchScore(service, p1, scores) <= MatchScore(service, p2, scores)
  {
  }

  // ---------------------------------------------------------------- presentation

  const HighlyRecommended: string := "Highly recommended based on your profile"
  const GoodFit: string := "Good fit for your current needs"
  const SuitableOption: string := "Suitable option to consider"
  const CustomReason: string := "ideal for developing custom AI solutions"
  const GuidanceReason: string := "provides personalized guidance for your situation"
  const FoundationReason: string := "builds foundational AI knowledge"
  const FundedReason: string := "fully funded by Australian Government"

  function BucketPhrase(matchScore: int): string
  {
    if matchScore >= 80 then HighlyRecommended else if matchScore >= 60 then GoodFit else SuitableOption
  }

  /** The reasons in the order the engine collects them, the bucket phrase first. */
  function Reasons(service: Service, profile: BusinessProfile, matchScore: int, hasOpportunity: bool): (r: seq<string>)
    ensures |r| >= 1 && r[0] == BucketPhrase(matchScore)
    ensures FundedReason in r <==> service.cost == Free
    ensures GuidanceReason in r <==> service.kind == Consultation
  {
    [BucketPhrase(matchScore)]
    + (if service.kind == Program && hasOpportunity then [CustomReason] else [])
    + (if service.kind == Consultation then [GuidanceReason] else [])
    + (if service.kind == Course && profile.digitalMaturity == Basic then [FoundationReason] else [])
    + (if service.cost == Free then [FundedReason] else [])
  }

  function GenerateRationale(service: Service, profile: BusinessProfile, matchScore: int, hasOpportunity: bool): string
  {
    Text.Join(Reasons(service, profile, matchScore, hasOpportunity), ", ")
  }

  /** The rationale opens with the bucket phrase and mentions the funding exactly for free services. */
  lemma RationaleShape(service: Service, profile: BusinessProfile, matchScore: int, hasOpportunity: bool)
    ensures Text.StartsWith(GenerateRationale(service, profile, matchScore, hasOpportunity), BucketPhrase(matchScore))
    ensures service.cost == Free ==> Text.Includes(GenerateRationale(service, profile, matchScore, hasOpportunity), FundedReason)
  {
    var rs := Reasons(service, profile, matchScore, hasOpportunity);
    Text.JoinStartsWithFirst(rs, ", ");
    if service.cost == Free {
      var k :| 0 <= k < |rs| && rs[k] == FundedReason;
      Text.JoinIncludesElement(rs, ", ", k);
    }
  }

  function DeterminePriority(matchScore: int): (p: Priority)
    ensures p == HighPriority <==> matchScore >= 80
    ensures p == LowPriority <==> matchScore < 60
  {
    if matchScore >= 80 then HighPriority else if matchScore >= 60 then MediumPriority else LowPriority
  }

  /** The call to action: products link to their information page, the rest to booking first. */
  function GenerateCta(service: Service): (cta: (string, string))
    ensures service.kind == Product ==> cta.1 == Text.OrElse(service.infoUrl, "#")
    ensures service.kind != Product ==> cta.1 == Text.OrElse(service.bookingUrl, Text.OrElse(service.infoUrl, "#"))
    ensures cta.1 != ""
  {
    var fallback := Text.OrElse(service.infoUrl, "#");
    match service.kind
    case Program => ("Apply for AI Studio Program", Text.OrElse(service.bookingUrl, fallback))
    case Consultation => ("Book Your Free Consultation", Text.OrElse(service.bookingUrl, fallback))
    case Course => ("Enroll in Course", Text.OrElse(service.bookingUrl, fallback))
    case Product => ("Explore AI Solutions", fallback)
  }

  // ---------------------------------------------------------------- recommend

  function TopScores(assessed: seq<Assessed>): Option<Score>
  {
    if |assessed| == 0 then None else assessed[0].score
  }

  function MakeRecommendation(service: Service, profile: BusinessProfile, assessed: seq<Assessed>): Recommendation
  {
    var m := MatchScore(service, profile, TopScores(assessed));
    var cta := GenerateCta(service);
    Recommendation(service, m, GenerateRationale(service, profile, m, |assessed| > 0),
                   DeterminePriority(m), cta.0, cta.1)
  }

  /** The recommendations the loop collects: every service with a positive score, in catalogue order. */
  function Candidates(services: seq<Service>, profile: BusinessProfile, assessed: seq<Assessed>): (r: seq<Recommendation>)
    ensures forall x :: x in r ==> x.service in services && x.matchScore > 0
                                   && x == MakeRecommendation(x.service, profile, assessed)
  {
    if |services| == 0 then []
    else
      var rest := Candidates(services[..|services| - 1], profile, assessed);
      var x := MakeRecommendation(services[|services| - 1], profile, assessed);
      if x.matchScore > 0 then rest + [x] else rest
  }

  function MatchKey(r: Recommendation): real
  {
    r.matchScore as real
  }

  /** The recommendations, best match first (ties in catalogue order), at most five. */
  function RecommendSpec(services: seq<Service>, profile: BusinessProfile, assessed: seq<Assessed>): seq<Recommendation>
  {
    Sorting.Take(Sorting.SortDesc(Candidates(services, profile, assessed), MatchKey), 5)
  }

  /** The engine's loop over its services, then the sort and the cut to five. */
  method Recommend(services: seq<Service>, profile: BusinessProfile, assessed: seq<Assessed>)
    returns (result: seq<Recommendation>)
    ensures result == RecommendSpec(services, profile, assessed)
  {
    var recommendations: seq<Recommendation> := [];
    var topScores := TopScores(assessed);
    var i := 0;
    while i < |services|
      invariant 0 <= i <= |services|
      invariant recommendations == Candidates(services[..i], profile, assessed)
    {
      var service := services[i];
      var matchScore := MatchScore(service, profile, topScores);
      if matchScore > 0 {
        var cta := GenerateCta(service);
        var rec := Recommendation(service, matchScore, GenerateRationale(service, profile, matchScore, |assessed| > 0),
                                  DeterminePriority(matchScore), cta.0, cta.1);
        recommendations := recommendations + [rec];
      }
      assert services[..i + 1][..i] == services[..i];
      i := i + 1;
    }
    assert services[..i] == services;
    result := Sorting.Take(Sorting.SortDesc(recommendations, MatchKey), 5);
  }

  /**
   * What the engine promises of its recommendations: the five best candidates
   * (all of them when fewer), best match first, no candidate left out scoring
   * higher than one kept, each an eligible service of the list scored between 60 and 100,
   * so that none is ever of low priority.
   */
  lemma RecommendationsAreStrong(services: seq<Service>, profile: BusinessProfile, assessed: seq<Assessed>)
    ensures var r := RecommendSpec(services, profile, assessed);
      var c := Candidates(services, profile, assessed);
      |r| <= 5
      && |r| == (if 5 < |c| then 5 else |c|)
      && (forall d, e :: d in c && d !in r && e in r ==> e.matchScore >= d.matchScore)
      && Sorting.SortedDesc(r, MatchKey)
      && forall x :: x in r ==>
           x.service in services && CheckEligibility(x.service, profile, TopScores(assessed))
           && 60 <= x.matchScore <= 100 && x.priority != LowPriority
  {
    var c := Candidates(services, profile, assessed);
    Sorting.SortDescProperties(c, MatchKey);
    var sorted := Sorting.SortDesc(c, MatchKey);
    var r := Sorting.Take(sorted, 5);
    assert Sorting.SortedDesc(r, MatchKey);
    TopFive(c);
    forall x | x in r
      ensures x.service in services && CheckEligibility(x.service, profile, TopScores(assessed))
      ensures 60 <= x.matchScore <= 100 && x.priority != LowPriority
    {
      assert x in sorted;
      assert x in multiset(c);
    }
  }

  /** The cut to five keeps the five best, or all. */
  lemma TopFive(c: seq<Recommendation>)
    ensures var r := Sorting.Take(Sorting.SortDesc(c, MatchKey), 5);
      |r| == (if 5 < |c| then 5 else |c|)
      && (forall d, e :: d in c && d !in r && e in r ==> e.matchScore >= d.matchScore)
  {
    Sorting.TakeSortDesc(c, MatchKey, 5);
    var r := Sorting.Take(Sorting.SortDesc(c, MatchKey), 5);
    forall d, e | d in c && d !in r && e in r ensures e.matchScore >= d.matchScore {
      assert MatchKey(e) >= MatchKey(d);
    }
  }

  /** Every eligible service is a candidate: nothing with a positive score is dropped before the cut. */
  lemma {:induction false} EligibleIsCandidate(services: seq<Service>, profile: BusinessProfile, assessed: seq<Assessed>, k: nat)
    requires k < |services| && CheckEligibility(services[k], profile, TopScores(assessed))
    ensures MakeRecommendation(services[k], profile, assessed) in Candidates(services, profile, assessed)
  {
    if k < |services| - 1 {
      var init := services[..|services| - 1];
      assert init[k] == services[k];
      EligibleIsCandidate(init, profile, assessed, k);
    }
  }

  // ---------------------------------------------------------------- catalogue getters

  /** `find`: the first service with the id. */
  function FindService(services: seq<Service>, id: string): (r: Option<Service>)
    ensures r.Some? ==> r.value in services && r.value.id == id
    ensures r.Some? ==> exists i :: 0 <= i < |services| && services[i] == r.value
                                    && forall j :: 0 <= j < i ==> services[j].id != id
    ensures r.None? ==> forall s :: s in services ==> s.id != id
  {
    if |services| == 0 then None else if services[0].id == id then Some(services[0]) else FindService(services[1..], id)
  }

  /** `getServiceById`: the first catalogue service with the id. */
  function GetServiceById(id: string): (r: Option<Service>)
    ensures r.Some? ==> r.value in Services && r.value.id == id
    ensures r.Some? ==> exists i :: 0 <= i < |Services| && Services[i] == r.value
                                    && forall j :: 0 <= j < i ==> Services[j].id != id
    ensures r.None? ==> forall s :: s in Services ==> s.id != id
  {
    FindService(Services, id)
  }

  /** `getAllServices`: a copy of the catalogue. */
  function GetAllServices(): (r: seq<Service>)
    ensures |r| == 7
  {
    Services
  }

  /** The catalogue's ids, in catalogue order. */
  const ServiceIds: seq<string> := [
    "ai-studio-program", "one-on-one-consultation", "ai-fundamentals-course", "industry-specific-workshop",
    "ai-products-directory", "technical-readiness-assessment", "grant-funding-guidance"
  ]

  /**
   * The copy holds the seven catalogue services in order, their ids are
   * distinct, and looking any of them up by its id finds that very service.
   */
  lemma AllServicesListed()
    ensures var r := GetAllServices();
      |r| == |ServiceIds|
      && (forall k :: 0 <= k < |r| ==> r[k].id == ServiceIds[k])
      && (forall i, j :: 0 <= i < j < |r| ==> r[i].id != r[j].id)
      && (forall s :: s in r ==> GetServiceById(s.id) == Some(s))
  {
    var r := GetAllServices();
    assert forall k :: 0 <= k < |r| ==> r[k].id == ServiceIds[k];
    assert forall i, j :: 0 <= i < j < |r| ==> r[i].id != r[j].id;
    FindEach(r);
  }

  /** In a list whose ids are distinct, `find` by a listed service's id gives that service. */
  lemma FindEach(services: seq<Service>)
    requires forall i, j :: 0 <= i < j < |services| ==> services[i].id != services[j].id
    ensures forall s :: s in services ==> FindService(services, s.id) == Some(s)
  {
    forall s | s in services ensures FindService(services, s.id) == Some(s) {
      var k :| 0 <= k < |services| && services[k] == s;
      var found := FindService(services, s.id);
      assert found.Some?;
      var i :| 0 <= i < |services| && services[i] == found.value && forall j :: 0 <= j < i ==> services[j].id != s.id;
      assert i == k;
    }
  }

  function GetServicesByType(kind: ServiceType): (r: seq<Service>)
    ensures forall s :: s in r <==> s in Services && s.kind == kind
  {
    Sorting.Filter(Services, (s: Service) => s.kind == kind)
  }

  function GetServicesByCategory(category: string): (r: seq<Service>)
    ensures forall s :: s in r <==> s in Services && s.category == category
  {
    Sorting.Filter(Services, (s: Service) => s.category == category)
  }

  // ---------------------------------------------------------------- the worked example

  /** An agricultural small business, developing, limited capacity, medium budget. */
  predicate ExampleProfile(p: BusinessProfile)
  {
    p.industry == Agriculture && p.size == Small && p.digitalMaturity == Developing
    && p.budget == MediumBudget && p.technicalCapacity == Limited
  }

  const ExampleScores := Score(2, 4, 3, 2, 0)

  /** With readiness 2 the AI Studio Program (minimum readiness 3) is ruled out. */
  lemma ExampleStudioIneligible(p: BusinessProfile)
    requires ExampleProfile(p)
    ensures MatchScore(AiStudioProgram, p, Some(ExampleScores)) == 0
  {
  }

  /** The consultation scores 50 + 10 + 10 + 15 = 85, a high priority. */
  lemma ExampleConsultation(p: BusinessProfile)
    requires ExampleProfile(p)
    ensures MatchScore(OneOnOneConsultation, p, Some(ExampleScores)) == 85
    ensures DeterminePriority(MatchScore(OneOnOneConsultation, p, Some(ExampleScores))) == HighPriority
  {
    var id := OneOnOneConsultation.id;
    assert |id| != |"industry-specific-workshop"|;
  }
}
