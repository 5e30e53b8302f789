// The AI opportunity assessment: a fixed catalogue of eight opportunities, a
// deterministic four-part score for an opportunity against a business profile,
// and the ranked top five opportunities of the profile's industry.
module OpportunityAssessment {
  import opened Wrappers
  import Text
  import Sorting

  datatype Industry = Agriculture | CleanEnergy | Medical | EnablingCapabilities
  datatype Size = Small | MediumSize
  datatype Maturity = Basic | Developing | Advanced
  datatype Budget = LowBudget | MediumBudget | HighBudget
  datatype Timeline = Immediate | ShortTerm | LongTerm
  datatype Capacity = NoCapacity | Limited | Strong
  datatype Level = Low | Medium | High

  datatype BusinessProfile = BusinessProfile(
    industry: Industry,
    size: Size,
    digitalMaturity: Maturity,
    budget: Budget,
    timeline: Timeline,
    technicalCapacity: Capacity,
    currentPainPoints: seq<string>,
    businessGoals: seq<string>)

  datatype Opportunity = Opportunity(
    id: string,
    title: string,
    description: string,
    industry: Industry,
    implementationTime: string,
    requiredInvestment: string,
    technicalComplexity: Level,
    businessImpact: Level,
    prerequisites: seq<string>,
    potentialROI: string,
    smecServices: seq<string>)

  /**
   * The four sub-scores lie in 0..5. The weighted composite is kept in
   * hundredths, which is what rounding it to two decimals leaves.
   */
  datatype Score = Score(readiness: int, impact: int, complexity: int, cost: int, compositeHundredths: int)

  datatype ScoredOpportunity = ScoredOpportunity(opportunity: Opportunity, score: Score)

  // ---------------------------------------------------------------- catalogue

  const CropMonitoringInvestment: string := "$15,000-$40,000"
  const PrecisionFarmingInvestment: string := "$8,000-$25,000"
  const PredictiveMaintenanceInvestment: string := "$20,000-$60,000"
  const EnergyForecastingInvestment: string := "$12,000-$35,000"
  const DiagnosticAssistanceInvestment: string := "$30,000-$80,000"
  const PatientFlowInvestment: string := "$5,000-$15,000"
  const QualityControlInvestment: string := "$25,000-$70,000"
  const ProcessAutomationInvestment: string := "$3,000-$12,000"


  const CropMonitoring := Opportunity(
    "ag-crop-monitoring", "AI-Powered Crop Monitoring",
    "Use satellite imagery and AI to monitor crop health, predict yields, and optimize irrigation",
    Agriculture, "3-6 months", CropMonitoringInvestment, Medium, High,
    ["Internet connectivity", "Basic smartphone/tablet usage"], "20-35% yield improvement",
    ["AI Products & Consultations", "One-on-One Consultations"])
  const PrecisionFarming := Opportunity(
    "ag-precision-farming", "Precision Farming with IoT Sensors",
    "Deploy soil sensors and weather stations with AI analytics for optimized farming decisions",
    Agriculture, "2-4 months", PrecisionFarmingInvestment, Low, Medium,
    ["Field access for sensor installation"], "15-25% input cost reduction",
    ["Short Courses", "AI Products & Consultations"])
  const PredictiveMaintenance := Opportunity(
    "ce-predictive-maintenance", "Predictive Maintenance for Energy Equipment",
    "AI-driven maintenance scheduling to prevent equipment failures and optimize uptime",
    CleanEnergy, "4-8 months", PredictiveMaintenanceInvestment, High, High,
    ["Equipment sensors", "Historical maintenance data"], "25-40% maintenance cost reduction",
    ["AI Studio Program", "One-on-One Consultations"])
  const EnergyForecasting := Opportunity(
    "ce-energy-forecasting", "AI Energy Demand Forecasting",
    "Predict energy consumption patterns to optimize grid operations and reduce costs",
    CleanEnergy, "3-6 months", EnergyForecastingInvestment, Medium, Medium,
    ["Historical energy usage data", "Smart meter integration"], "10-20% energy cost savings",
    ["AI Products & Consultations", "Short Courses"])
  const DiagnosticAssistance := Opportunity(
    "med-diagnostic-assistance", "AI Diagnostic Assistance",
    "AI-powered tools to assist with medical image analysis and diagnostic decisions",
    Medical, "6-12 months", DiagnosticAssistanceInvestment, High, High,
    ["Medical imaging equipment", "Regulatory compliance"], "30-50% diagnostic accuracy improvement",
    ["AI Studio Program", "One-on-One Consultations"])
  const PatientFlow := Opportunity(
    "med-patient-flow", "Patient Flow Optimization",
    "AI scheduling and resource allocation to reduce wait times and improve patient experience",
    Medical, "2-4 months", PatientFlowInvestment, Low, Medium,
    ["Patient management system", "Historical appointment data"], "20-30% efficiency improvement",
    ["AI Products & Consultations", "Short Courses"])
  const QualityControl := Opportunity(
    "ec-quality-control", "AI-Powered Quality Control",
    "Computer vision systems for automated defect detection and quality assurance",
    EnablingCapabilities, "4-8 months", QualityControlInvestment, High, High,
    ["Manufacturing equipment", "Camera systems"], "40-60% defect reduction",
    ["AI Studio Program", "One-on-One Consultations"])
  const ProcessAutomation := Opportunity(
    "ec-process-automation", "Process Automation with AI",
    "Automate repetitive tasks and workflows using AI-powered tools",
    EnablingCapabilities, "1-3 months", ProcessAutomationInvestment, Low, Medium,
    ["Digital workflow systems"], "25-40% time savings",
    ["Short Courses", "AI Products & Consultations"])

  const Catalog: seq<Opportunity> := [
    CropMonitoring, PrecisionFarming, PredictiveMaintenance, EnergyForecasting,
    DiagnosticAssistance, PatientFlow, QualityControl, ProcessAutomation
  ]

  // ---------------------------------------------------------------- scoring

  /** `Math.max(0, Math.min(5, x))`. */
  function Clamp(x: int): (r: int)
    ensures 0 <= r <= 5
    ensures 0 <= x <= 5 ==> r == x
    ensures x < 0 ==> r == 0
    ensures x > 5 ==> r == 5
  {
    if x < 0 then 0 else if x > 5 then 5 else x
  }

  function MaturityRank(m: Maturity): int
  {
    match m case Basic => 0 case Developing => 1 case Advanced => 2
  }

  function CapacityRank(c: Capacity): int
  {
    match c case NoCapacity => 0 case Limited => 1 case Strong => 2
  }

  function BudgetRank(b: Budget): int
  {
    match b case LowBudget => 0 case MediumBudget => 1 case HighBudget => 2
  }

  function SizeRank(s: Size): int
  {
    match s case Small => 0 case MediumSize => 1
  }

  function ReadinessScore(op: Opportunity, p: BusinessProfile): (r: int)
    ensures 0 <= r <= 5
  {
    var complexityAdj := match op.technicalComplexity case Low => 1 case Medium => 0 case High => -1;
    Clamp(MaturityRank(p.digitalMaturity) + CapacityRank(p.technicalCapacity) + complexityAdj)
  }

  /** A goal aligns when the description mentions it, or it speaks of efficiency, cost or quality. */
  predicate GoalAligns(description: string, goal: string)
  {
    var g := Text.Lower(goal);
    Text.Includes(Text.Lower(description), g)
    || Text.Includes(g, "efficiency") || Text.Includes(g, "cost") || Text.Includes(g, "quality")
  }

  predicate AnyGoalAligns(description: string, goals: seq<string>)
  {
    exists i :: 0 <= i < |goals| && GoalAligns(description, goals[i])
  }

  function ImpactScore(op: Opportunity, p: BusinessProfile): (r: int)
    ensures 0 <= r <= 5
  {
    var base := match op.businessImpact case High => 3 case Medium => 2 case Low => 1;
    Clamp(base + SizeRank(p.size) + (if AnyGoalAligns(op.description, p.businessGoals) then 1 else 0))
  }

  function ComplexityScore(op: Opportunity, p: BusinessProfile): (r: int)
    ensures 0 <= r <= 5
  {
    var base := match op.technicalComplexity case High => 3 case Medium => 2 case Low => 1;
    var adj := match p.technicalCapacity case Strong => -1 case Limited => 0 case NoCapacity => 1;
    Clamp(base + adj)
  }

  /**
   * The price tier read off the investment text: the first of the figure pairs
   * 80,000/70,000, 60,000/50,000, 40,000/35,000 and 25,000/15,000 that the
   * lower-cased text mentions gives 4, 3, 2 or 1; none gives 0.
   */
  function CostTier(investment: string): (t: int)
    ensures 0 <= t <= 4
    ensures t == 4 <==> Text.Includes(Text.Lower(investment), "80,000") || Text.Includes(Text.Lower(investment), "70,000")
  {
    var s := Text.Lower(investment);
    if Text.Includes(s, "80,000") || Text.Includes(s, "70,000") then 4
    else if Text.Includes(s, "60,000") || Text.Includes(s, "50,000") then 3
    else if Text.Includes(s, "40,000") || Text.Includes(s, "35,000") then 2
    else if Text.Includes(s, "25,000") || Text.Includes(s, "15,000") then 1
    else 0
  }

  function CostScore(op: Opportunity, p: BusinessProfile): (r: int)
    ensures 0 <= r <= 5
  {
    var adj := match p.budget case HighBudget => -1 case MediumBudget => 0 case LowBudget => 1;
    Clamp(CostTier(op.requiredInvestment) + adj)
  }

  /** Weights 0.4 impact, 0.3 readiness, 0.2 for (5 - cost), 0.1 for (5 - complexity), in hundredths. */
  function CompositeHundredths(readiness: int, impact: int, complexity: int, cost: int): int
  {
    40 * impact + 30 * readiness + 20 * (5 - cost) + 10 * (5 - complexity)
  }

  function ScoreOpportunity(op: Opportunity, p: BusinessProfile): (s: Score)
    ensures 0 <= s.readiness <= 5 && 0 <= s.impact <= 5 && 0 <= s.complexity <= 5 && 0 <= s.cost <= 5
    ensures s.compositeHundredths == CompositeHundredths(s.readiness, s.impact, s.complexity, s.cost)
    ensures 0 <= s.compositeHundredths <= 500
  {
    var r := ReadinessScore(op, p);
    var i := ImpactScore(op, p);
    var c := ComplexityScore(op, p);
    var x := CostScore(op, p);
    Score(r, i, c, x, CompositeHundredths(r, i, c, x))
  }

  /**
   * A profile that is at least as mature, as technically capable, as well
   * funded and as large as another, with the same goals, never scores an
   * opportunity lower.
   */
  lemma BetterProfileNeverScoresLower(op: Opportunity, p1: BusinessProfile, p2: BusinessProfile)
    requires MaturityRank(p1.digitalMaturity) <= MaturityRank(p2.digitalMaturity)
    requires CapacityRank(p1.technicalCapacity) <= CapacityRank(p2.technicalCapacity)
    requires BudgetRank(p1.budget) <= BudgetRank(p2.budget)
    requires SizeRank(p1.size) <= SizeRank(p2.size)
    requires p1.businessGoals == p2.businessGoals
    ensures ScoreOpportunity(op, p1).compositeHundredths <= ScoreOpportunity(op, p2).compositeHundredths
  {
    var s1 := ScoreOpportunity(op, p1);
    var s2 := ScoreOpportunity(op, p2);
    assert s1.readiness <= s2.readiness;
    assert s1.impact <= s2.impact;
    assert s1.complexity >= s2.complexity;
    assert s1.cost >= s2.cost;
  }

  /** A higher price tier never lowers the cost sub-score, and so never raises the composite. */
  lemma DearerNeverScoresHigher(op1: Opportunity, op2: Opportunity, p: BusinessProfile)
    requires op1.technicalComplexity == op2.technicalComplexity && op1.businessImpact == op2.businessImpact
    requires op1.description == op2.description
    requires CostTier(op1.requiredInvestment) <= CostTier(op2.requiredInvestment)
    ensures ScoreOpportunity(op2, p).compositeHundredths <= ScoreOpportunity(op1, p).compositeHundredths
  {
  }

  // ---------------------------------------------------------------- assessment

  function CompositeKey(s: ScoredOpportunity): real
  {
    s.score.compositeHundredths as real
  }

  function ScoreAll(ops: seq<Opportunity>, p: BusinessProfile): (r: seq<ScoredOpportunity>)
    ensures |r| == |ops|
    ensures forall i :: 0 <= i < |ops| ==> r[i] == ScoredOpportunity(ops[i], ScoreOpportunity(ops[i], p))
  {
    seq(|ops|, i requires 0 <= i < |ops| => ScoredOpportunity(ops[i], ScoreOpportunity(ops[i], p)))
  }

  function OpportunitiesByIndustry(industry: Industry): (r: seq<Opportunity>)
    ensures forall o :: o in r <==> o in Catalog && o.industry == industry
  {
    Sorting.Filter(Catalog, (o: Opportunity) => o.industry == industry)
  }

  /** The profile's industry's opportunities, scored, best composite first, at most five. */
  function Assess(p: BusinessProfile): seq<ScoredOpportunity>
  {
    Rank(OpportunitiesByIndustry(p.industry), p)
  }

  /** Score every opportunity, sort by descending composite (ties keep their order), keep five. */
  function Rank(ops: seq<Opportunity>, p: BusinessProfile): seq<ScoredOpportunity>
  {
    Sorting.Take(Sorting.SortDesc(ScoreAll(ops, p), CompositeKey), 5)
  }

  /** Ranking at most five scored entries keeps them all, with their own scores, best first. */
  lemma RankKeepsAll(ops: seq<Opportunity>, p: BusinessProfile)
    requires |ops| <= 5
    ensures var r := Rank(ops, p);
      |r| == |ops|
      && Sorting.SortedDesc(r, CompositeKey)
      && multiset(r) == multiset(ScoreAll(ops, p))
      && (forall x :: x in r ==> x.opportunity in ops && x.score == ScoreOpportunity(x.opportunity, p))
  {
    var scored := ScoreAll(ops, p);
    Sorting.SortDescProperties(scored, CompositeKey);
    var sorted := Sorting.SortDesc(scored, CompositeKey);
    assert Sorting.Take(sorted, 5) == sorted;
    forall x | x in sorted
      ensures x.opportunity in ops && x.score == ScoreOpportunity(x.opportunity, p)
    {
      assert x in multiset(scored);
      var i :| 0 <= i < |scored| && scored[i] == x;
    }
  }

  /**
   * The assessment ranks exactly the opportunities of the profile's industry:
   * every one of them appears once (no industry has more than five), each with
   * its own score, best composite first.
   */
  lemma AssessRanksIndustry(p: BusinessProfile)
    ensures var r := Assess(p);
      |r| == 2
      && Sorting.SortedDesc(r, CompositeKey)
      && multiset(r) == multiset(ScoreAll(OpportunitiesByIndustry(p.industry), p))
      && (forall x :: x in r ==> x.opportunity in Catalog && x.opportunity.industry == p.industry
                                 && x.score == ScoreOpportunity(x.opportunity, p))
  {
    var ops := OpportunitiesByIndustry(p.industry);
    IndustryHasTwo(p.industry);
    RankKeepsAll(ops, p);
  }

  /** The two catalogue entries of each industry, in catalogue order. */
  function IndustryPair(industry: Industry): seq<Opportunity>
  {
    match industry
    case Agriculture => [CropMonitoring, PrecisionFarming]
    case CleanEnergy => [PredictiveMaintenance, EnergyForecasting]
    case Medical => [DiagnosticAssistance, PatientFlow]
    case EnablingCapabilities => [QualityControl, ProcessAutomation]
  }

  function Keep(o: Opportunity, f: Opportunity -> bool): seq<Opportunity>
  {
    if f(o) then [o] else []
  }

  lemma FilterTwo(a: Opportunity, b: Opportunity, f: Opportunity -> bool)
    ensures Sorting.Filter([a, b], f) == Keep(a, f) + Keep(b, f)
  {
    assert [a, b][1..] == [b];
    assert [b][1..] == [];
  }

  /** Filtering eight entries, two at a time. */
  lemma FilterEight(a: Opportunity, b: Opportunity, c: Opportunity, d: Opportunity,
                    e: Opportunity, g: Opportunity, h: Opportunity, k: Opportunity, f: Opportunity -> bool)
    ensures Sorting.Filter([a, b, c, d, e, g, h, k], f)
         == (Keep(a, f) + Keep(b, f)) + (Keep(c, f) + Keep(d, f)) + (Keep(e, f) + Keep(g, f)) + (Keep(h, f) + Keep(k, f))
  {
    assert [a, b, c, d, e, g, h, k] == [a, b] + [c, d] + [e, g] + [h, k];
    Sorting.FilterAppend([a, b] + [c, d] + [e, g], [h, k], f);
    Sorting.FilterAppend([a, b] + [c, d], [e, g], f);
    Sorting.FilterAppend([a, b], [c, d], f);
    FilterTwo(a, b, f);
    FilterTwo(c, d, f);
    FilterTwo(e, g, f);
    FilterTwo(h, k, f);
  }

  lemma KeepPair(a: Opportunity, b: Opportunity, f: Opportunity -> bool, yes: bool)
    requires f(a) == f(b) == yes
    ensures Keep(a, f) + Keep(b, f) == if yes then [a, b] else []
  {
  }

  lemma PlacePair(k0: seq<Opportunity>, k1: seq<Opportunity>, k2: seq<Opportunity>, k3: seq<Opportunity>,
                  j: nat, pair: seq<Opportunity>)
    requires j < 4
    requires k0 == (if j == 0 then pair else []) && k1 == (if j == 1 then pair else [])
    requires k2 == (if j == 2 then pair else []) && k3 == (if j == 3 then pair else [])
    ensures k0 + k1 + k2 + k3 == pair
  {
    if j == 0 {
      assert k0 + k1 + k2 + k3 == pair + [] + [] + [];
    } else if j == 1 {
      assert k0 + k1 + k2 + k3 == [] + pair + [] + [];
    } else if j == 2 {
      assert k0 + k1 + k2 + k3 == [] + [] + pair + [];
    } else {
      assert k0 + k1 + k2 + k3 == [] + [] + [] + pair;
    }
  }

  /** Of eight entries, the filter keeps exactly the pair at position `j`. */
  lemma FilterSelectsPair(xs: seq<Opportunity>, j: nat, f: Opportunity -> bool)
    requires |xs| == 8 && j < 4
    requires f(xs[0]) == f(xs[1]) == (j == 0) && f(xs[2]) == f(xs[3]) == (j == 1)
    requires f(xs[4]) == f(xs[5]) == (j == 2) && f(xs[6]) == f(xs[7]) == (j == 3)
    ensures Sorting.Filter(xs, f) == [xs[2 * j], xs[2 * j + 1]]
  {
    assert xs == [xs[0], xs[1], xs[2], xs[3], xs[4], xs[5], xs[6], xs[7]];
    FilterEight(xs[0], xs[1], xs[2], xs[3], xs[4], xs[5], xs[6], xs[7], f);
    KeepPair(xs[0], xs[1], f, j == 0);
    KeepPair(xs[2], xs[3], f, j == 1);
    KeepPair(xs[4], xs[5], f, j == 2);
    KeepPair(xs[6], xs[7], f, j == 3);
    PlacePair(Keep(xs[0], f) + Keep(xs[1], f), Keep(xs[2], f) + Keep(xs[3], f),
              Keep(xs[4], f) + Keep(xs[5], f), Keep(xs[6], f) + Keep(xs[7], f), j, [xs[2 * j], xs[2 * j + 1]]);
  }

  /** Filtering the catalogue by industry yields exactly that industry's pair. */
  lemma ByIndustryIsPair(industry: Industry)
    ensures OpportunitiesByIndustry(industry) == IndustryPair(industry)
  {
    var f := (o: Opportunity) => o.industry == industry;
    var j := match industry case Agriculture => 0 case CleanEnergy => 1 case Medical => 2 case EnablingCapabilities => 3;
    FilterSelectsPair(Catalog, j, f);
  }

  /** Every industry has exactly two catalogue entries. */
  lemma IndustryHasTwo(industry: Industry)
    ensures |OpportunitiesByIndustry(industry)| == 2
  {
    ByIndustryIsPair(industry);
  }

  function GetOpportunityById(id: string): (r: Option<Opportunity>)
    ensures r.Some? ==> r.value in Catalog && r.value.id == id
    ensures r.None? ==> forall o :: o in Catalog ==> o.id != id
  {
    FindById(Catalog, id)
  }

  /** `find`: the first entry with the id. */
  function FindById(ops: seq<Opportunity>, id: string): (r: Option<Opportunity>)
    ensures r.Some? ==> r.value in ops && r.value.id == id
    ensures r.Some? ==> exists i :: 0 <= i < |ops| && ops[i] == r.value
                                    && forall j :: 0 <= j < i ==> ops[j].id != id
    ensures r.None? ==> forall o :: o in ops ==> o.id != id
    ensures |ops| > 0 && ops[0].id == id ==> r == Some(ops[0])
  {
    if |ops| == 0 then None else if ops[0].id == id then Some(ops[0]) else FindById(ops[1..], id)
  }

  function GetAllOpportunities(): (r: seq<Opportunity>)
    ensures |r| == 8
  {
    Catalog
  }

  /** The example profile of the assessment script: a small, developing farm on a medium budget. */
  const ExampleFarm := BusinessProfile(
    Agriculture, Small, Developing, MediumBudget, ShortTerm, Limited,
    ["crop monitoring", "yield prediction"], ["increase efficiency", "reduce costs"])

  lemma ExampleFarmGoalAligns(op: Opportunity)
    ensures AnyGoalAligns(op.description, ExampleFarm.businessGoals)
  {
    var g := "increase efficiency";
    Text.LowerOfLower(g);
    Text.IncludesAt(g, "efficiency", 9);
    assert GoalAligns(op.description, ExampleFarm.businessGoals[0]);
  }

  lemma PrecisionFarmingScore()
    ensures ScoreOpportunity(PrecisionFarming, ExampleFarm) == Score(3, 3, 1, 1, 330)
  {
    ExampleFarmGoalAligns(PrecisionFarming);
    PrecisionFarmingTier();
  }

  lemma CropMonitoringScore()
    ensures ScoreOpportunity(CropMonitoring, ExampleFarm) == Score(2, 4, 2, 2, 310)
  {
    ExampleFarmGoalAligns(CropMonitoring);
    CropMonitoringTier();
  }

  /** An industry pair whose second entry scores higher is ranked second first. */
  lemma RankPair(p: BusinessProfile, a: Opportunity, b: Opportunity)
    requires ScoreOpportunity(a, p).compositeHundredths < ScoreOpportunity(b, p).compositeHundredths
    ensures Rank([a, b], p) == [ScoredOpportunity(b, ScoreOpportunity(b, p)), ScoredOpportunity(a, ScoreOpportunity(a, p))]
  {
    var x := ScoredOpportunity(a, ScoreOpportunity(a, p));
    var y := ScoredOpportunity(b, ScoreOpportunity(b, p));
    assert ScoreAll([a, b], p) == [x, y];
    Sorting.SortTwo(x, y, CompositeKey);
  }

  /** Precision farming ranks first at 3.30, crop monitoring second at 3.10. */
  lemma ExampleFarmRanking()
    ensures Assess(ExampleFarm)
         == [ScoredOpportunity(PrecisionFarming, Score(3, 3, 1, 1, 330)),
             ScoredOpportunity(CropMonitoring, Score(2, 4, 2, 2, 310))]
  {
    ByIndustryIsPair(Agriculture);
    PrecisionFarmingScore();
    CropMonitoringScore();
    RankPair(ExampleFarm, CropMonitoring, PrecisionFarming);
  }

  /**
   * A six-character figure such as "25,000" can only occur where its comma
   * lines up with a comma of the text.
   */
  lemma FigureWindows(s: string, p: string, i1: nat, i2: nat)
    requires |p| == 6 && p[2] == ','
    requires forall i :: 0 <= i < |s| && s[i] == ',' ==> i == i1 + 2 || i == i2 + 2
    ensures Text.Includes(s, p) ==> Text.OccursAt(s, p, i1) || Text.OccursAt(s, p, i2)
  {
    if Text.Includes(s, p) {
      var i := Text.IndexOf(s, p);
      assert s[i..i + 6][2] == s[i + 2];
    }
  }

  lemma FigureIff(s: string, p: string, i1: nat, i2: nat)
    requires |p| == 6 && p[2] == ',' && i1 + 6 <= |s| && i2 + 6 <= |s|
    requires forall i :: 0 <= i < |s| && s[i] == ',' ==> i == i1 + 2 || i == i2 + 2
    ensures Text.Includes(s, p) <==> p == s[i1..i1 + 6] || p == s[i2..i2 + 6]
  {
    FigureWindows(s, p, i1, i2);
    if p == s[i1..i1 + 6] {
      Text.IncludesAt(s, p, i1);
    } else if p == s[i2..i2 + 6] {
      Text.IncludesAt(s, p, i2);
    }
  }

  /** Which of the tier figures an investment text mentions, given the figures in its two windows. */
  lemma TierFromWindows(s: string, i1: nat, i2: nat, tier: int)
    requires i1 + 6 <= |s| && i2 + 6 <= |s|
    requires forall i :: 0 <= i < |s| && s[i] == ',' ==> i == i1 + 2 || i == i2 + 2
    requires forall i :: 0 <= i < |s| ==> !Text.IsAsciiUpper(s[i])
    requires tier == WindowTier(s[i1..i1 + 6], s[i2..i2 + 6])
    ensures CostTier(s) == tier
  {
    Text.LowerOfLower(s);
    FigureIff(s, "80,000", i1, i2);
    FigureIff(s, "70,000", i1, i2);
    FigureIff(s, "60,000", i1, i2);
    FigureIff(s, "50,000", i1, i2);
    FigureIff(s, "40,000", i1, i2);
    FigureIff(s, "35,000", i1, i2);
    FigureIff(s, "25,000", i1, i2);
    FigureIff(s, "15,000", i1, i2);
  }

  /** The tier of a text whose only figures are `a` and `b`. */
  function WindowTier(a: string, b: string): int
  {
    var has := (f: string) => f == a || f == b;
    if has("80,000") || has("70,000") then 4
    else if has("60,000") || has("50,000") then 3
    else if has("40,000") || has("35,000") then 2
    else if has("25,000") || has("15,000") then 1
    else 0
  }

  lemma PrecisionFarmingTier()
    ensures CostTier(PrecisionFarmingInvestment) == 1
  {
    var s := PrecisionFarmingInvestment;
    assert s[0..6] == "$8,000" && s[8..14] == "25,000";
    TierFromWindows(s, 0, 8, 1);
  }

  lemma CropMonitoringTier()
    ensures CostTier(CropMonitoringInvestment) == 2
  {
    var s := CropMonitoringInvestment;
    assert s[1..7] == "15,000" && s[9..15] == "40,000";
    TierFromWindows(s, 1, 9, 2);
  }
}
