/**
  Report helpers: the 0-100 scale, maturity levels, completeness and
  confidence, block roll-ups, red-flag penalties and council risk,
  prioritised gaps, the three-wave roadmap and the facts the narratives
  are built from.
 */
module ReportHelpers {
  import opened Basics
  import opened Types
  import opened Sorting
  import Scoring

  // ---------------------------------------------------------------------
  // Score conversion and levels
  // ---------------------------------------------------------------------

  /** scoreTo100: the 1..5 scale mapped linearly onto 0..100 and rounded. */
  function ScoreTo100(score: real): (r: int)
    ensures r as real - 0.5 <= 25.0 * (score - 1.0) < r as real + 0.5
  {
    Round((score - 1.0) / 4.0 * 100.0)
  }

  lemma ScoreTo100Monotone(a: real, b: real)
    requires a <= b
    ensures ScoreTo100(a) <= ScoreTo100(b)
  {
    RoundMonotone((a - 1.0) / 4.0 * 100.0, (b - 1.0) / 4.0 * 100.0);
  }

  /** The scale's anchors, and the "no data" score 0 landing below the scale. */
  lemma ScoreTo100Anchors()
    ensures ScoreTo100(1.0) == 0 && ScoreTo100(5.0) == 100
    ensures ScoreTo100(0.0) == -25
    ensures ScoreTo100(4.0) == 75
  {
  }

  lemma ScoreTo100Range(score: real)
    requires 1.0 <= score <= 5.0
    ensures 0 <= ScoreTo100(score) <= 100
  {
    ScoreTo100Monotone(1.0, score);
    ScoreTo100Monotone(score, 5.0);
    ScoreTo100Anchors();
  }

  datatype Level = Inicial | EmEvolucao | Estruturado | Avancado
  {
    function Rank(): nat
    {
      match this
      case Inicial => 0
      case EmEvolucao => 1
      case Estruturado => 2
      case Avancado => 3
    }

    function Label(): string
    {
      match this
      case Inicial => "Inicial"
      case EmEvolucao => "Em evolução"
      case Estruturado => "Estruturado"
      case Avancado => "Avançado"
    }
  }

  /** getLevel: bands with inclusive lower bounds 75, 55 and 35. */
  function GetLevel(score100: int): (l: Level)
    ensures l == Avancado <==> score100 >= 75
    ensures l == Estruturado <==> 55 <= score100 < 75
    ensures l == EmEvolucao <==> 35 <= score100 < 55
    ensures l == Inicial <==> score100 < 35
  {
    if score100 >= 75 then Avancado
    else if score100 >= 55 then Estruturado
    else if score100 >= 35 then EmEvolucao
    else Inicial
  }

  /** A higher score never lands in a lower band. */
  lemma GetLevelMonotone(a: int, b: int)
    requires a <= b
    ensures GetLevel(a).Rank() <= GetLevel(b).Rank()
  {
  }

  // ---------------------------------------------------------------------
  // Completeness
  // ---------------------------------------------------------------------

  datatype Confidence = High | Medium | Low

  datatype CompletenessInfo = CompletenessInfo(answered: nat, total: nat, pct: int, confidence: Confidence)

  function SumAnswered(scores: seq<DimensionScore>): nat
  {
    if |scores| == 0 then 0 else scores[0].answered + SumAnswered(scores[1..])
  }

  function SumTotal(scores: seq<DimensionScore>): nat
  {
    if |scores| == 0 then 0 else scores[0].total + SumTotal(scores[1..])
  }

  lemma {:induction false} SumAnsweredAtMostTotal(scores: seq<DimensionScore>)
    requires forall i :: 0 <= i < |scores| ==> scores[i].answered <= scores[i].total
    ensures SumAnswered(scores) <= SumTotal(scores)
  {
    if |scores| > 0 {
      SumAnsweredAtMostTotal(scores[1..]);
    }
  }

  /** getCompleteness: answered over total as a rounded percentage, and its confidence band. */
  function GetCompleteness(result: AssessmentResult): (c: CompletenessInfo)
    ensures c.answered == SumAnswered(result.dimension_scores)
    ensures c.total == SumTotal(result.dimension_scores)
    ensures c.total == 0 ==> c.pct == 0
    ensures c.pct as real - 0.5 <= 100.0 * Scoring.Ratio(c.answered, c.total) < c.pct as real + 0.5
    ensures c.answered <= c.total ==> 0 <= c.pct <= 100
    ensures c.confidence == High <==> c.pct >= 80
    ensures c.confidence == Medium <==> 50 <= c.pct < 80
    ensures c.confidence == Low <==> c.pct < 50
  {
    var answered := SumAnswered(result.dimension_scores);
    var total := SumTotal(result.dimension_scores);
    var ratio := Scoring.Ratio(answered, total);
    var pct := if total > 0 then Round(ratio * 100.0) else 0;
    assert answered <= total ==> 0 <= pct <= 100 by {
      if total > 0 && answered <= total {
        RoundMonotone(0.0, ratio * 100.0);
        RoundMonotone(ratio * 100.0, 100.0);
      }
    }
    var confidence := if pct >= 80 then High else if pct >= 50 then Medium else Low;
    CompletenessInfo(answered, total, pct, confidence)
  }

  // ---------------------------------------------------------------------
  // Blocks
  // ---------------------------------------------------------------------

  const DEFAULT_BLOCKS: seq<BlockDef> := [
    BlockDef("crescimento", "Crescimento", ["MN", "GT", "EE"]),
    BlockDef("fundamentos", "Fundamentos", ["FS", "PM", "GR"]),
    BlockDef("execucao", "Execução", ["PT", "PL", "IC"])
  ]

  /** getBlocks: the configured blocks, or the default partition when none are configured. */
  function GetBlocks(config: ConfigJSON): (r: seq<BlockDef>)
    ensures |r| > 0
    ensures |config.blocks| > 0 ==> r == config.blocks
    ensures |config.blocks| == 0 ==> r == DEFAULT_BLOCKS
  {
    if |config.blocks| > 0 then config.blocks else DEFAULT_BLOCKS
  }

  datatype BlockResult = BlockResult(
    id: string,
    name: string,
    score100: int,
    level: Level,
    lowestDim: string,
    dimensions: seq<DimensionScore>)

  function BlockMembers(block: BlockDef, scores: seq<DimensionScore>): seq<DimensionScore>
  {
    Filter(scores, (d: DimensionScore) => d.dimension_id in block.dimensions)
  }

  function WeightTotal(dims: seq<DimensionScore>, weights: Record<real>): real
  {
    if |dims| == 0 then 0.0 else WeightOf(weights, dims[0].dimension_id) + WeightTotal(dims[1..], weights)
  }

  function ScoreOf(d: DimensionScore): real { d.score }

  function NegScore(d: DimensionScore): real { -d.score }

  /** The weight applied to each dimension, in order. */
  function AppliedWeights(dims: seq<DimensionScore>, weights: Record<real>): (ws: seq<real>)
    ensures |ws| == |dims|
    ensures forall i :: 0 <= i < |dims| ==> ws[i] == WeightOf(weights, dims[i].dimension_id)
  {
    if |dims| == 0 then [] else [WeightOf(weights, dims[0].dimension_id)] + AppliedWeights(dims[1..], weights)
  }

  function Scores(dims: seq<DimensionScore>): (xs: seq<real>)
    ensures |xs| == |dims|
    ensures forall i :: 0 <= i < |dims| ==> xs[i] == dims[i].score
  {
    if |dims| == 0 then [] else [dims[0].score] + Scores(dims[1..])
  }

  /** The total weight and the weighted sum, as plain sums over the applied weights. */
  lemma {:induction false} WeightedAsDot(dims: seq<DimensionScore>, weights: Record<real>)
    ensures WeightTotal(dims, weights) == Sum(AppliedWeights(dims, weights))
    ensures Scoring.WeightedSum(dims, weights) == Dot(Scores(dims), AppliedWeights(dims, weights))
  {
    if |dims| > 0 {
      WeightedAsDot(dims[1..], weights);
      assert AppliedWeights(dims, weights)[1..] == AppliedWeights(dims[1..], weights);
      assert Scores(dims)[1..] == Scores(dims[1..]);
    }
  }

  lemma {:induction false} WeightTotalPositive(dims: seq<DimensionScore>, weights: Record<real>)
    requires NonNegativeWeights(weights)
    ensures |dims| > 0 ==> WeightTotal(dims, weights) > 0.0
    ensures WeightTotal(dims, weights) >= 0.0
  {
    if |dims| > 0 {
      WeightTotalPositive(dims[1..], weights);
      WeightPositive(weights, dims[0].dimension_id);
    }
  }

  /** A weighted average of scores within [lo, hi] is itself within [lo, hi]. */
  lemma AverageWithin(dims: seq<DimensionScore>, weights: Record<real>, lo: real, hi: real)
    requires |dims| > 0 && NonNegativeWeights(weights)
    requires forall i :: 0 <= i < |dims| ==> lo <= dims[i].score <= hi
    ensures WeightTotal(dims, weights) > 0.0
    ensures lo <= Scoring.WeightedSum(dims, weights) / WeightTotal(dims, weights) <= hi
  {
    var xs, ws := Scores(dims), AppliedWeights(dims, weights);
    forall i | 0 <= i < |ws| ensures ws[i] > 0.0 {
      WeightPositive(weights, dims[i].dimension_id);
    }
    BoundedAll(xs, ws, lo, hi);
    DotAverage(xs, ws, lo, hi);
    WeightedAsDot(dims, weights);
  }

  function MinScore(dims: seq<DimensionScore>): (m: real)
    requires |dims| > 0
    ensures forall j :: 0 <= j < |dims| ==> m <= dims[j].score
    ensures exists j :: 0 <= j < |dims| && m == dims[j].score
  {
    if |dims| == 1 then dims[0].score
    else
      var m := MinScore(dims[1..]);
      assert forall j :: 1 <= j < |dims| ==> dims[j] == dims[1..][j - 1];
      if dims[0].score <= m then dims[0].score else m
  }

  function MaxScore(dims: seq<DimensionScore>): (m: real)
    requires |dims| > 0
    ensures forall j :: 0 <= j < |dims| ==> dims[j].score <= m
    ensures exists j :: 0 <= j < |dims| && m == dims[j].score
  {
    if |dims| == 1 then dims[0].score
    else
      var m := MaxScore(dims[1..]);
      assert forall j :: 1 <= j < |dims| ==> dims[j] == dims[1..][j - 1];
      if dims[0].score >= m then dims[0].score else m
  }

  /** A block's weighted average lies between its lowest and its highest member score. */
  lemma BlockAverageBetween(dims: seq<DimensionScore>, weights: Record<real>)
    requires |dims| > 0 && NonNegativeWeights(weights)
    ensures WeightTotal(dims, weights) > 0.0
    ensures var avg := Scoring.WeightedSum(dims, weights) / WeightTotal(dims, weights);
            ScoreTo100(MinScore(dims)) <= ScoreTo100(avg) <= ScoreTo100(MaxScore(dims))
  {
    var lo, hi := MinScore(dims), MaxScore(dims);
    AverageWithin(dims, weights, lo, hi);
    var avg := Scoring.WeightedSum(dims, weights) / WeightTotal(dims, weights);
    ScoreTo100Monotone(lo, avg);
    ScoreTo100Monotone(avg, hi);
  }

  /**
    A non-empty block's 0-100 score: `scoreTo100` of the members' average
    weighted by the `|| 1` weights.
   */
  function BlockScore100(dims: seq<DimensionScore>, weights: Record<real>): (s: int)
    requires |dims| > 0 && NonNegativeWeights(weights)
    ensures Sum(AppliedWeights(dims, weights)) > 0.0
    ensures s == ScoreTo100(Dot(Scores(dims), AppliedWeights(dims, weights)) / Sum(AppliedWeights(dims, weights)))
    ensures ScoreTo100(MinScore(dims)) <= s <= ScoreTo100(MaxScore(dims))
  {
    BlockAverageBetween(dims, weights);
    WeightedAsDot(dims, weights);
    ScoreTo100(Scoring.WeightedSum(dims, weights) / WeightTotal(dims, weights))
  }

  /** The position of the earliest member with the lowest score. */
  function LowestIndex(dims: seq<DimensionScore>): (i: nat)
    requires |dims| > 0
    ensures i < |dims|
    ensures forall j :: 0 <= j < |dims| ==> dims[i].score <= dims[j].score
    ensures forall j :: 0 <= j < i ==> dims[j].score > dims[i].score
  {
    var i := FirstMaxIndex(dims, NegScore);
    assert forall j :: 0 <= j < |dims| ==> NegScore(dims[j]) <= NegScore(dims[i]);
    i
  }

  /**
    One block of the roll-up (the body of the `map` in computeBlocks): the
    weighted average of its members on the 0-100 scale, and the label of the
    lowest-scoring member, the earliest one among ties.
   */
  function ComputeBlock(block: BlockDef, scores: seq<DimensionScore>, weights: Record<real>): (b: BlockResult)
    requires NonNegativeWeights(weights)
    ensures b.id == block.id && b.name == block.name
    ensures b.dimensions == BlockMembers(block, scores)
    ensures b.level == GetLevel(b.score100)
    ensures |b.dimensions| == 0 ==> b.score100 == 0 && b.lowestDim == ""
    ensures |b.dimensions| > 0 ==>
              ScoreTo100(MinScore(b.dimensions)) <= b.score100 <= ScoreTo100(MaxScore(b.dimensions))
    ensures |b.dimensions| > 0 ==> Sum(AppliedWeights(b.dimensions, weights)) > 0.0
    ensures |b.dimensions| > 0 ==>
              b.score100 == ScoreTo100(Dot(Scores(b.dimensions), AppliedWeights(b.dimensions, weights))
                                       / Sum(AppliedWeights(b.dimensions, weights)))
    ensures |b.dimensions| > 0 ==> b.lowestDim == b.dimensions[LowestIndex(b.dimensions)].name
  {
    var dims := BlockMembers(block, scores);
    if |dims| == 0 then
      BlockResult(block.id, block.name, 0, GetLevel(0), "", dims)
    else
      HeadOfSortDesc(dims, NegScore);
      var score100 := BlockScore100(dims, weights);
      var lowest := SortDesc(dims, NegScore)[0];
      BlockResult(block.id, block.name, score100, GetLevel(score100), lowest.name, dims)
  }

  /** computeBlocks: one result per block, in block order. */
  function ComputeBlocks(blocks: seq<BlockDef>, scores: seq<DimensionScore>, config: ConfigJSON, stage: string)
    : (r: seq<BlockResult>)
    requires NonNegativeWeights(StageWeights(config, stage))
    ensures |r| == |blocks|
    ensures forall i :: 0 <= i < |blocks| ==> r[i] == ComputeBlock(blocks[i], scores, StageWeights(config, stage))
  {
    Map(blocks, (block: BlockDef) requires NonNegativeWeights(StageWeights(config, stage)) =>
                  ComputeBlock(block, scores, StageWeights(config, stage)))
  }

  // ---------------------------------------------------------------------
  // Red-flag penalties and council risk
  // ---------------------------------------------------------------------

  /** DEFAULT_PENALTY[severity]: defined for four severities only ("critical" is not one). */
  function DefaultPenalty(severity: string): (o: Option<real>)
    ensures o.Some? <==> severity in ["high", "medium_high", "medium", "low"]
  {
    if severity == "high" then Some(15.0)
    else if severity == "medium_high" then Some(10.0)
    else if severity == "medium" then Some(6.0)
    else if severity == "low" then Some(3.0)
    else None
  }

  /**
    getPenalty: the configured `penalty_points` of the first rule with the
    flag's code, else the severity's default, else 6. `??` keeps a configured 0.
   */
  function GetPenalty(rf: EvaluatedRedFlag, config: ConfigJSON): (p: real)
    ensures (FindConfigFlag(config, rf.code).Some? && FindConfigFlag(config, rf.code).value.penalty_points.Some?)
              ==> p == FindConfigFlag(config, rf.code).value.penalty_points.value
    ensures (FindConfigFlag(config, rf.code).None? || FindConfigFlag(config, rf.code).value.penalty_points.None?)
              ==> p == (if DefaultPenalty(rf.severity).Some? then DefaultPenalty(rf.severity).value else 6.0)
  {
    var configured := match FindConfigFlag(config, rf.code)
      case Some(c) => c.penalty_points
      case None => None;
    match configured
    case Some(points) => points
    case None =>
      match DefaultPenalty(rf.severity)
      case Some(points) => points
      case None => 6.0
  }

  /** Without a configured override, every penalty is one of 15, 10, 6 or 3, and "critical" costs 6. */
  lemma DefaultPenaltyValues(rf: EvaluatedRedFlag, config: ConfigJSON)
    requires FindConfigFlag(config, rf.code).None? || FindConfigFlag(config, rf.code).value.penalty_points.None?
    ensures GetPenalty(rf, config) in {15.0, 10.0, 6.0, 3.0}
    ensures rf.severity == "critical" ==> GetPenalty(rf, config) == 6.0
    ensures rf.severity == "high" ==> GetPenalty(rf, config) == 15.0
  {
  }

  function TotalPenalty(flags: seq<EvaluatedRedFlag>, config: ConfigJSON): real
  {
    if |flags| == 0 then 0.0 else GetPenalty(flags[0], config) + TotalPenalty(flags[1..], config)
  }

  lemma {:induction false} TotalPenaltyAppend(flags: seq<EvaluatedRedFlag>, rf: EvaluatedRedFlag, config: ConfigJSON)
    ensures TotalPenalty(flags + [rf], config) == TotalPenalty(flags, config) + GetPenalty(rf, config)
  {
    if |flags| > 0 {
      assert (flags + [rf])[1..] == flags[1..] + [rf];
      TotalPenaltyAppend(flags[1..], rf, config);
    }
  }

  /** computeCouncilRisk: 100 minus the summed penalties, clamped to 0..100. */
  function ComputeCouncilRisk(flags: seq<EvaluatedRedFlag>, config: ConfigJSON): (r: real)
    ensures 0.0 <= r <= 100.0
    ensures 0.0 <= TotalPenalty(flags, config) <= 100.0 ==> r == 100.0 - TotalPenalty(flags, config)
    ensures TotalPenalty(flags, config) >= 100.0 ==> r == 0.0
    ensures TotalPenalty(flags, config) <= 0.0 ==> r == 100.0
  {
    Max(0.0, Min(100.0, 100.0 - TotalPenalty(flags, config)))
  }

  /** One more flag with a non-negative penalty never raises the council risk score. */
  lemma CouncilRiskAntitone(flags: seq<EvaluatedRedFlag>, rf: EvaluatedRedFlag, config: ConfigJSON)
    requires GetPenalty(rf, config) >= 0.0
    ensures ComputeCouncilRisk(flags + [rf], config) <= ComputeCouncilRisk(flags, config)
  {
    TotalPenaltyAppend(flags, rf, config);
  }

  /** No configured flags: one high and one critical flag leave 100 - 15 - 6 = 79. */
  lemma CouncilRiskExample(config: ConfigJSON)
    requires config.red_flags == []
    ensures ComputeCouncilRisk([EvaluatedRedFlag("RF_A", "A", "high", []),
                                EvaluatedRedFlag("RF_B", "B", "critical", [])], config) == 79.0
  {
    var flags := [EvaluatedRedFlag("RF_A", "A", "high", []), EvaluatedRedFlag("RF_B", "B", "critical", [])];
    assert GetPenalty(flags[0], config) == 15.0;
    assert GetPenalty(flags[1], config) == 6.0;
    assert flags[1..][0] == flags[1] && flags[1..][1..] == [];
    assert TotalPenalty(flags[1..], config) == 6.0;
  }

  datatype SeverityCategory = Critico | Atencao | Monitorar
  {
    function Label(): string
    {
      match this
      case Critico => "Crítico"
      case Atencao => "Atenção"
      case Monitorar => "Monitorar"
    }
  }

  /** getSeverityCategory. */
  function GetSeverityCategory(severity: string): (c: SeverityCategory)
    ensures c == Critico <==> IsHighSeverity(severity)
    ensures c == Atencao <==> severity == "medium_high" || severity == "medium"
    ensures c == Monitorar <==> !IsHighSeverity(severity) && severity != "medium_high" && severity != "medium"
  {
    if severity in ["high", "critical"] then Critico
    else if severity in ["medium_high", "medium"] then Atencao
    else Monitorar
  }

  // ---------------------------------------------------------------------
  // Prioritised gaps
  // ---------------------------------------------------------------------

  datatype PrioritizedGap = PrioritizedGap(
    dimension_id: string,
    name: string,
    score: real,
    score100: int,
    target: real,
    target100: int,
    potential100: int,
    gap_potential: int,
    priority_score: real)

  function GapPriority(g: PrioritizedGap): real { g.priority_score }

  /** The gap record of one dimension (the body of the `map` in computeGaps). */
  function GapOf(d: DimensionScore, targets: Record<real>, weights: Record<real>): (g: PrioritizedGap)
    ensures g.dimension_id == d.dimension_id && g.name == d.name && g.score == d.score && g.target == d.target
    ensures g.score100 == ScoreTo100(d.score) && g.target100 == ScoreTo100(d.target)
    ensures g.potential100 == ScoreTo100(OrDefault(Lookup(targets, d.dimension_id), d.target))
    ensures g.gap_potential >= 0
    ensures g.gap_potential > 0 <==> g.potential100 > g.score100
    ensures g.gap_potential > 0 ==> g.gap_potential == g.potential100 - g.score100
    ensures g.priority_score == g.gap_potential as real * WeightOf(weights, d.dimension_id)
  {
    var s100 := ScoreTo100(d.score);
    var potential100 := ScoreTo100(OrDefault(Lookup(targets, d.dimension_id), d.target));
    var gap := if potential100 - s100 > 0 then potential100 - s100 else 0;
    PrioritizedGap(d.dimension_id, d.name, d.score, s100, d.target, ScoreTo100(d.target),
                   potential100, gap, gap as real * WeightOf(weights, d.dimension_id))
  }

  predicate Covered(d: DimensionScore) { d.coverage > 0.0 }

  predicate HasGap(g: PrioritizedGap) { g.gap_potential > 0 }

  /** The gaps before sorting: covered dimensions with a positive gap, in input order. */
  function CandidateGaps(scores: seq<DimensionScore>, targets: Record<real>, weights: Record<real>): (r: seq<PrioritizedGap>)
    ensures forall i :: 0 <= i < |r| ==> HasGap(r[i])
  {
    Filter(Map(Filter(scores, Covered), (d: DimensionScore) => GapOf(d, targets, weights)), HasGap)
  }

  /**
    computeGaps: one gap per answered dimension that falls short of its
    potential, highest priority first, input order kept among equal priorities.
   */
  function ComputeGaps(scores: seq<DimensionScore>, config: ConfigJSON, stage: string): (r: seq<PrioritizedGap>)
    ensures NonIncreasing(r, GapPriority)
    ensures multiset(r) == multiset(CandidateGaps(scores, StageTargets(config, stage), StageWeights(config, stage)))
    ensures forall i :: 0 <= i < |r| ==> r[i].gap_potential > 0
  {
    var candidates := CandidateGaps(scores, StageTargets(config, stage), StageWeights(config, stage));
    SortDescAll(candidates, GapPriority, HasGap);
    SortDesc(candidates, GapPriority)
  }

  /** Every gap is the gap record of an answered dimension. */
  lemma ComputeGapsSound(scores: seq<DimensionScore>, config: ConfigJSON, stage: string, i: nat)
    requires i < |ComputeGaps(scores, config, stage)|
    ensures exists j :: 0 <= j < |scores| && scores[j].coverage > 0.0
              && ComputeGaps(scores, config, stage)[i] == GapOf(scores[j], StageTargets(config, stage), StageWeights(config, stage))
  {
    var targets, weights := StageTargets(config, stage), StageWeights(config, stage);
    var g := ComputeGaps(scores, config, stage)[i];
    var covered := Filter(scores, Covered);
    var mapped := Map(covered, (d: DimensionScore) => GapOf(d, targets, weights));
    assert g in multiset(Filter(mapped, HasGap));
    assert g in mapped;
    var k :| 0 <= k < |mapped| && mapped[k] == g;
    assert covered[k] in scores;
    var j :| 0 <= j < |scores| && scores[j] == covered[k];
  }

  /** Every answered dimension whose potential exceeds its score has its gap listed. */
  lemma ComputeGapsComplete(scores: seq<DimensionScore>, config: ConfigJSON, stage: string, j: nat)
    requires j < |scores| && scores[j].coverage > 0.0
    requires GapOf(scores[j], StageTargets(config, stage), StageWeights(config, stage)).gap_potential > 0
    ensures GapOf(scores[j], StageTargets(config, stage), StageWeights(config, stage)) in ComputeGaps(scores, config, stage)
  {
    var targets, weights := StageTargets(config, stage), StageWeights(config, stage);
    var g := GapOf(scores[j], targets, weights);
    var covered := Filter(scores, Covered);
    var mapped := Map(covered, (d: DimensionScore) => GapOf(d, targets, weights));
    assert scores[j] in covered;
    var k :| 0 <= k < |covered| && covered[k] == scores[j];
    assert mapped[k] == g;
    assert g in multiset(Filter(mapped, HasGap));
    assert g in multiset(ComputeGaps(scores, config, stage));
  }

  /** Gaps of equal priority keep the order of the dimension scores. */
  lemma ComputeGapsStable(scores: seq<DimensionScore>, config: ConfigJSON, stage: string, k: real)
    ensures WithKey(ComputeGaps(scores, config, stage), GapPriority, k)
         == WithKey(CandidateGaps(scores, StageTargets(config, stage), StageWeights(config, stage)), GapPriority, k)
  {
    SortDescStable(CandidateGaps(scores, StageTargets(config, stage), StageWeights(config, stage)), GapPriority, k);
  }

  /** A dimension whose target already is the stage target reaches exactly that target. */
  lemma ScoredPotential(d: DimensionScore, targets: Record<real>, weights: Record<real>)
    requires Lookup(targets, d.dimension_id).Some? && Lookup(targets, d.dimension_id).value != 0.0 ==>
               d.target == Lookup(targets, d.dimension_id).value
    ensures GapOf(d, targets, weights).potential100 == GapOf(d, targets, weights).target100
  {
  }

  /**
    For scores computed for the same stage, the potential equals the target:
    the dimension's target already is the stage target or the 3.5 fallback.
   */
  lemma {:induction false} PotentialEqualsTarget(config: ConfigJSON, answers: seq<Answer>, stage: string)
    ensures var gaps := ComputeGaps(Scoring.CalculateDimensionScores(config, answers, stage), config, stage);
            forall i :: 0 <= i < |gaps| ==> gaps[i].potential100 == gaps[i].target100
  {
    var targets := StageTargets(config, stage);
    var scores := Scoring.CalculateDimensionScores(config, answers, stage);
    var gaps := ComputeGaps(scores, config, stage);
    forall i | 0 <= i < |gaps| ensures gaps[i].potential100 == gaps[i].target100 {
      ComputeGapsSound(scores, config, stage, i);
      var j :| 0 <= j < |scores| && scores[j].coverage > 0.0 && gaps[i] == GapOf(scores[j], targets, StageWeights(config, stage));
      assert scores[j] == Scoring.ScoreDimension(config.questions, answers, targets, config.dimensions[j]);
      ScoredPotential(scores[j], targets, StageWeights(config, stage));
    }
  }

  // ---------------------------------------------------------------------
  // Roadmap
  // ---------------------------------------------------------------------

  /** The rationale of a roadmap item: the red-flag text, or a gap's points (and priority in wave 1). */
  datatype Rationale = FlagRationale(text: string) | GapRationale(points: int, priority: Option<int>)

  /** Where a roadmap item comes from; its title and rationale follow from it and its wave. */
  datatype ItemSource = FromFlag(flag: EvaluatedRedFlag) | FromGap(gap: PrioritizedGap)

  datatype RoadmapAction = RoadmapAction(source: ItemSource, wave: nat)
  {
    function Title(): string
    {
      match source
      case FromFlag(rf) => FlagTitle(rf)
      case FromGap(g) =>
        (if wave == 1 then "Fortalecer " else if wave == 2 then "Desenvolver " else "Consolidar ") + g.name
    }

    function Rationale(): Rationale
    {
      match source
      case FromFlag(rf) => FlagRationale("Red Flag: " + rf.name + " (" + rf.severity + ")")
      case FromGap(g) =>
        GapRationale(g.gap_potential, if wave == 1 then Some(Round(g.priority_score)) else None)
    }

    function WaveLabel(): string
    {
      if wave == 1 then "0-30 dias" else if wave == 2 then "31-90 dias" else "3-6 meses"
    }
  }

  predicate IsRoadmapSeverity(rf: EvaluatedRedFlag)
  {
    rf.severity in ["high", "critical", "medium_high"]
  }

  /** `rf.actions[0] || rf.label`: an empty first action falls back to the label. */
  function FlagTitle(rf: EvaluatedRedFlag): (t: string)
    ensures |rf.actions| > 0 && rf.actions[0] != "" ==> t == rf.actions[0]
    ensures |rf.actions| == 0 || rf.actions[0] == "" ==> t == rf.name
  {
    if |rf.actions| > 0 && rf.actions[0] != "" then rf.actions[0] else rf.name
  }

  function FlagItem(rf: EvaluatedRedFlag): RoadmapAction
  {
    RoadmapAction(FromFlag(rf), 1)
  }

  /** Wave 1 opens with up to three flags of severity high, critical or medium_high, in flag order. */
  function FlagItems(flags: seq<EvaluatedRedFlag>): (r: seq<RoadmapAction>)
    ensures var urgent := Filter(flags, IsRoadmapSeverity);
            && |r| == (if |urgent| <= 3 then |urgent| else 3)
            && forall i :: 0 <= i < |r| ==> r[i] == FlagItem(urgent[i]) && r[i].wave == 1
  {
    Map(Take(Filter(flags, IsRoadmapSeverity), 3), FlagItem)
  }

  predicate MentionedIn(items: seq<RoadmapAction>, g: PrioritizedGap)
  {
    exists i :: 0 <= i < |items| && items[i].Rationale().FlagRationale? && Contains(items[i].Rationale().text, g.name)
  }

  /** The gaps no red-flag item mentions by name, in priority order. */
  function GapActions(gaps: seq<PrioritizedGap>, items: seq<RoadmapAction>): seq<PrioritizedGap>
  {
    if |gaps| == 0 then []
    else (if MentionedIn(items, gaps[0]) then [] else [gaps[0]]) + GapActions(gaps[1..], items)
  }

  function GapItem(g: PrioritizedGap, wave: nat): RoadmapAction
  {
    RoadmapAction(FromGap(g), wave)
  }

  /** `actions.filter((a) => a.wave === wave).length`. */
  function CountWave(actions: seq<RoadmapAction>, wave: nat): nat
  {
    if |actions| == 0 then 0
    else CountWave(actions[..|actions| - 1], wave) + (if actions[|actions| - 1].wave == wave then 1 else 0)
  }

  /** Item `k` of the roadmap belongs to wave k / 3 + 1. */
  ghost predicate InWaves(actions: seq<RoadmapAction>)
  {
    forall k :: 0 <= k < |actions| ==> actions[k].wave == k / 3 + 1
  }

  /** With items laid out in waves of three, wave w holds the items 3(w-1) .. 3w-1 that exist. */
  lemma {:induction false} CountWaveLayout(actions: seq<RoadmapAction>, wave: nat)
    requires InWaves(actions) && wave >= 1
    ensures CountWave(actions, wave) ==
              if |actions| <= 3 * (wave - 1) then 0
              else if |actions| >= 3 * wave then 3
              else |actions| - 3 * (wave - 1)
  {
    if |actions| > 0 {
      var init := actions[..|actions| - 1];
      assert forall k :: 0 <= k < |init| ==> init[k] == actions[k];
      CountWaveLayout(init, wave);
    }
  }

  /**
    The roadmap so far: the flag items, then gap `k - nf` of `gapActions` at
    position `k`, each item in wave k / 3 + 1.
   */
  ghost predicate Laid(actions: seq<RoadmapAction>, flagItems: seq<RoadmapAction>, gapActions: seq<PrioritizedGap>)
  {
    && |flagItems| <= |actions| <= |flagItems| + |gapActions|
    && actions[..|flagItems|] == flagItems
    && InWaves(actions)
    && forall k :: |flagItems| <= k < |actions| ==> actions[k] == GapItem(gapActions[k - |flagItems|], k / 3 + 1)
  }

  lemma LaidExtend(actions: seq<RoadmapAction>, flagItems: seq<RoadmapAction>, gapActions: seq<PrioritizedGap>, wave: nat)
    requires Laid(actions, flagItems, gapActions) && |actions| < |flagItems| + |gapActions|
    requires wave == |actions| / 3 + 1
    ensures Laid(actions + [GapItem(gapActions[|actions| - |flagItems|], wave)], flagItems, gapActions)
  {
    var next := actions + [GapItem(gapActions[|actions| - |flagItems|], wave)];
    assert next[..|flagItems|] == actions[..|flagItems|];
    assert forall k :: 0 <= k < |actions| ==> next[k] == actions[k];
  }

  /** The number of gap items: the unmentioned gaps, up to nine items in all. */
  function GapItemCount(flagCount: nat, gapCount: nat): nat
    requires flagCount <= 9
  {
    if gapCount <= 9 - flagCount then gapCount else 9 - flagCount
  }

  /**
    The flag items, then gap k of `gapActions` at position nf + k, in wave
    (nf + k) / 3 + 1, up to nine items in all.
   */
  function Layout(flagItems: seq<RoadmapAction>, gapActions: seq<PrioritizedGap>): (r: seq<RoadmapAction>)
    requires |flagItems| <= 9
    ensures |r| == |flagItems| + GapItemCount(|flagItems|, |gapActions|) <= 9
    ensures r[..|flagItems|] == flagItems
  {
    var nf := |flagItems|;
    var m := GapItemCount(nf, |gapActions|);
    flagItems + seq(m, k requires 0 <= k < m => GapItem(gapActions[k], (nf + k) / 3 + 1))
  }

  lemma LayoutAt(flagItems: seq<RoadmapAction>, gapActions: seq<PrioritizedGap>, k: nat)
    requires |flagItems| <= 9 && k < |Layout(flagItems, gapActions)|
    ensures Layout(flagItems, gapActions)[k]
            == if k < |flagItems| then flagItems[k] else GapItem(gapActions[k - |flagItems|], k / 3 + 1)
  {
    var nf := |flagItems|;
    var m := GapItemCount(nf, |gapActions|);
    var tail := seq(m, j requires 0 <= j < m => GapItem(gapActions[j], (nf + j) / 3 + 1));
    assert Layout(flagItems, gapActions) == flagItems + tail;
    if k >= nf {
      assert (flagItems + tail)[k] == tail[k - nf];
    }
  }

  /** The roadmap laid out declaratively: the flag items, then the unmentioned gaps. */
  function PlannedRoadmap(gaps: seq<PrioritizedGap>, redFlags: seq<EvaluatedRedFlag>): (r: seq<RoadmapAction>)
    ensures |FlagItems(redFlags)| <= |r| <= 9
    ensures r[..|FlagItems(redFlags)|] == FlagItems(redFlags)
  {
    var flagItems := FlagItems(redFlags);
    Layout(flagItems, GapActions(gaps, flagItems))
  }

  lemma PlannedRoadmapAt(gaps: seq<PrioritizedGap>, redFlags: seq<EvaluatedRedFlag>, k: nat)
    requires k < |PlannedRoadmap(gaps, redFlags)|
    ensures var flagItems := FlagItems(redFlags);
            var nf := |flagItems|;
            && |PlannedRoadmap(gaps, redFlags)| == nf + GapItemCount(nf, |GapActions(gaps, flagItems)|)
            && PlannedRoadmap(gaps, redFlags)[k]
               == if k < nf then flagItems[k] else GapItem(GapActions(gaps, flagItems)[k - nf], k / 3 + 1)
  {
    var flagItems := FlagItems(redFlags);
    LayoutAt(flagItems, GapActions(gaps, flagItems), k);
  }

  /** A roadmap laid out to its full length is the planned one. */
  lemma LaidIsPlanned(actions: seq<RoadmapAction>, gaps: seq<PrioritizedGap>, redFlags: seq<EvaluatedRedFlag>)
    requires Laid(actions, FlagItems(redFlags), GapActions(gaps, FlagItems(redFlags)))
    requires |actions| == |FlagItems(redFlags)|
                          + GapItemCount(|FlagItems(redFlags)|, |GapActions(gaps, FlagItems(redFlags))|)
    ensures actions == PlannedRoadmap(gaps, redFlags)
  {
    var flagItems := FlagItems(redFlags);
    var nf := |flagItems|;
    var planned := PlannedRoadmap(gaps, redFlags);
    forall k | 0 <= k < |actions| ensures actions[k] == planned[k] {
      PlannedRoadmapAt(gaps, redFlags, k);
      if k < nf {
        assert actions[k] == actions[..nf][k];
      }
    }
  }

  /**
    generateRoadmap: up to three red-flag items, then the unmentioned gaps
    filling wave 1 to three items and waves 2 and 3 with three each.
   */
  method GenerateRoadmap(gaps: seq<PrioritizedGap>, redFlags: seq<EvaluatedRedFlag>)
    returns (actions: seq<RoadmapAction>)
    ensures actions == PlannedRoadmap(gaps, redFlags)
  {
    actions := FlagItems(redFlags);
    var nf := |actions|;
    var gapActions := GapActions(gaps, actions);
    ghost var flagItems := actions;
    var idx := 0;
    actions, idx := FillWave(actions, gapActions, idx, 1, flagItems);
    actions, idx := FillWave(actions, gapActions, idx, 2, flagItems);
    actions, idx := FillWave(actions, gapActions, idx, 3, flagItems);
    LaidIsPlanned(actions, gaps, redFlags);
  }

  /** One of the three `while` loops: unmentioned gaps fill the given wave up to three items. */
  method FillWave(actions0: seq<RoadmapAction>, gapActions: seq<PrioritizedGap>, idx0: nat, wave: nat,
                  ghost flagItems: seq<RoadmapAction>)
    returns (actions: seq<RoadmapAction>, idx: nat)
    requires 1 <= wave && Laid(actions0, flagItems, gapActions)
    requires idx0 <= |gapActions| && |actions0| == |flagItems| + idx0 <= 3 * wave
    requires idx0 < |gapActions| ==> |actions0| >= 3 * (wave - 1)
    ensures Laid(actions, flagItems, gapActions)
    ensures idx0 <= idx <= |gapActions| && |actions| == |flagItems| + idx <= 3 * wave
    ensures idx < |gapActions| ==> |actions| == 3 * wave
  {
    actions, idx := actions0, idx0;
    while CountWave(actions, wave) < 3 && idx < |gapActions|
      invariant idx0 <= idx <= |gapActions| && |actions| == |flagItems| + idx <= 3 * wave
      invariant idx < |gapActions| ==> |actions| >= 3 * (wave - 1)
      invariant Laid(actions, flagItems, gapActions)
    {
      CountWaveLayout(actions, wave);
      LaidExtend(actions, flagItems, gapActions, wave);
      actions := actions + [GapItem(gapActions[idx], wave)];
      idx := idx + 1;
    }
    CountWaveLayout(actions, wave);
  }

  /**
    The roadmap's shape: item k sits in wave k / 3 + 1, no wave holds more
    than three items, and it is as long as the flags and unmentioned gaps
    allow, up to nine.
   */
  lemma RoadmapWaves(gaps: seq<PrioritizedGap>, redFlags: seq<EvaluatedRedFlag>, wave: nat)
    requires wave >= 1
    ensures var r := PlannedRoadmap(gaps, redFlags);
            var n := |FlagItems(redFlags)| + |GapActions(gaps, FlagItems(redFlags))|;
            && InWaves(r)
            && |r| == (if n <= 9 then n else 9)
            && CountWave(r, wave) <= 3
            && (wave > 3 ==> CountWave(r, wave) == 0)
  {
    var r := PlannedRoadmap(gaps, redFlags);
    forall k | 0 <= k < |r| ensures r[k].wave == k / 3 + 1 {
      PlannedRoadmapAt(gaps, redFlags, k);
    }
    if |r| > 0 {
      PlannedRoadmapAt(gaps, redFlags, 0);
    }
    CountWaveLayout(r, wave);
  }

  /** The gap items are the gaps no flag item names, each once, in the gaps' order. */
  lemma {:induction false} GapActionsSpec(gaps: seq<PrioritizedGap>, items: seq<RoadmapAction>)
    ensures IsSubsequence(GapActions(gaps, items), gaps)
    ensures forall i :: 0 <= i < |GapActions(gaps, items)| ==> !MentionedIn(items, GapActions(gaps, items)[i])
    ensures forall i :: 0 <= i < |gaps| && !MentionedIn(items, gaps[i]) ==> gaps[i] in GapActions(gaps, items)
  {
    if |gaps| > 0 {
      GapActionsSpec(gaps[1..], items);
      var rest := GapActions(gaps[1..], items);
      if MentionedIn(items, gaps[0]) {
        assert GapActions(gaps, items) == rest;
      } else {
        assert GapActions(gaps, items) == [gaps[0]] + rest;
        assert ([gaps[0]] + rest)[1..] == rest;
      }
      forall i | 1 <= i < |gaps| && !MentionedIn(items, gaps[i]) ensures gaps[i] in GapActions(gaps, items) {
        assert gaps[i] == gaps[1..][i - 1];
      }
    }
  }

  // ---------------------------------------------------------------------
  // Narrative facts
  // ---------------------------------------------------------------------

  /** The covered dimensions, highest score first, ties in input order. */
  function RankedStrengths(scores: seq<DimensionScore>): (r: seq<DimensionScore>)
    ensures NonIncreasing(r, ScoreOf)
    ensures multiset(r) == multiset(Filter(scores, Covered))
  {
    SortDesc(Filter(scores, Covered), ScoreOf)
  }

  /** What the overall narrative states: level, score, two strengths, two gaps, urgent flag count. */
  datatype OverallNarrativeFacts = OverallNarrativeFacts(
    level: Level,
    score100: int,
    strengths: seq<string>,
    topGaps: seq<string>,
    highCount: nat)

  function NameOf(d: DimensionScore): string { d.name }

  function GapName(g: PrioritizedGap): string { g.name }

  function CountHigh(flags: seq<EvaluatedRedFlag>): (n: nat)
    ensures n <= |flags|
    ensures n == 0 <==> forall i :: 0 <= i < |flags| ==> !IsHighSeverity(flags[i].severity)
  {
    if |flags| == 0 then 0
    else (if IsHighSeverity(flags[0].severity) then 1 else 0) + CountHigh(flags[1..])
  }

  /** generateOverallNarrative, reduced to the facts its sentences report. */
  function OverallNarrative(result: AssessmentResult, config: ConfigJSON, stage: string): (f: OverallNarrativeFacts)
    ensures f.score100 == ScoreTo100(result.overall_score) && f.level == GetLevel(f.score100)
    ensures f.strengths == Map(Take(RankedStrengths(result.dimension_scores), 2), NameOf)
    ensures f.topGaps == Map(Take(ComputeGaps(result.dimension_scores, config, stage), 2), GapName)
    ensures |f.strengths| <= 2 && |f.topGaps| <= 2
    ensures f.highCount == CountHigh(result.red_flags)
  {
    var score100 := ScoreTo100(result.overall_score);
    OverallNarrativeFacts(
      GetLevel(score100),
      score100,
      Map(Take(RankedStrengths(result.dimension_scores), 2), NameOf),
      Map(Take(ComputeGaps(result.dimension_scores, config, stage), 2), GapName),
      CountHigh(result.red_flags))
  }

  /** The named strengths score at least as high as every covered dimension left unnamed. */
  lemma StrengthsAreTop(scores: seq<DimensionScore>, i: nat, d: DimensionScore)
    requires i < |Take(RankedStrengths(scores), 2)|
    requires d in scores && d.coverage > 0.0 && d !in Take(RankedStrengths(scores), 2)
    ensures d.score <= Take(RankedStrengths(scores), 2)[i].score
  {
    var ranked := RankedStrengths(scores);
    assert d in Filter(scores, Covered);
    assert d in multiset(ranked);
    var j :| 0 <= j < |ranked| && ranked[j] == d;
    assert ScoreOf(ranked[i]) >= ScoreOf(ranked[j]);
  }

  datatype Advice = Prioritaria | EmDesenvolvimento | Manter

  datatype DimensionNarrativeFacts = DimensionNarrativeFacts(
    level: Level,
    score100: int,
    coveragePct: int,
    answered: nat,
    total: nat,
    advice: Advice)

  /** generateDimensionNarrative, reduced to the facts its sentence reports. */
  function DimensionNarrative(ds: DimensionScore): (f: DimensionNarrativeFacts)
    ensures f.score100 == ScoreTo100(ds.score) && f.level == GetLevel(f.score100)
    ensures f.coveragePct as real - 0.5 <= ds.coverage * 100.0 < f.coveragePct as real + 0.5
    ensures f.answered == ds.answered && f.total == ds.total
    ensures f.advice == Prioritaria <==> f.score100 < 55
    ensures f.advice == EmDesenvolvimento <==> 55 <= f.score100 < 75
    ensures f.advice == Manter <==> f.score100 >= 75
  {
    var s100 := ScoreTo100(ds.score);
    var advice := if s100 < 55 then Prioritaria else if s100 < 75 then EmDesenvolvimento else Manter;
    DimensionNarrativeFacts(GetLevel(s100), s100, Round(ds.coverage * 100.0), ds.answered, ds.total, advice)
  }

  /** The advice follows the level bands: urgent below Estruturado, upkeep at Avançado. */
  lemma AdviceMatchesLevel(ds: DimensionScore)
    ensures var f := DimensionNarrative(ds);
            && (f.advice == Prioritaria <==> f.level in {Inicial, EmEvolucao})
            && (f.advice == EmDesenvolvimento <==> f.level == Estruturado)
            && (f.advice == Manter <==> f.level == Avancado)
  {
  }
}
