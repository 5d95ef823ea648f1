/**
  Shapes of the engine's inputs and outputs, after the types of the
  questionnaire configuration, answers and assessment results. Fields the
  engine never reads (texts, tooltips, timestamps, ids of persisted rows)
  are omitted.
 */
module Types {
  import opened Basics

  /** `name` is the source's `label` (a reserved word here); likewise below. */
  datatype ConfigDimension = ConfigDimension(id: string, name: string)

  /** `is_active` is optional; only an explicit `false` disables a question. */
  datatype ConfigQuestion = ConfigQuestion(id: string, dimension_id: string, is_active: Option<bool>)

  datatype TriggerType =
    | ScoreThreshold
    | NumericThreshold
    | NumericMissing
    | Requires
    | DimensionScoreBelow
    | ContextFieldBelow
    | ContextFieldMissing
    | QuestionScoreBelow
    | RedFlagTriggered

  datatype Trigger = Trigger(
    kind: TriggerType,
    dimension_id: Option<string>,
    question_id: Option<string>,
    threshold: Option<real>,
    field: Option<string>)

  /** A red-flag rule; `penalty_points` is an optional extra the report reads. */
  datatype ConfigRedFlag = ConfigRedFlag(
    code: string,
    name: string,
    severity: string,
    triggers: seq<Trigger>,
    actions: seq<string>,
    penalty_points: Option<real>)

  /** A library action, reduced to the fields that influence ranking. */
  datatype ParetoAction = ParetoAction(
    id: string,
    effort: string,
    impact_weight: real,
    addresses_red_flags: seq<string>,
    dimension_id: string)

  datatype BlockDef = BlockDef(id: string, name: string, dimensions: seq<string>)

  /**
    The questionnaire configuration. Optional lists (`red_flags`, `blocks`,
    `action_library`) are empty when absent: every use treats both alike.
    Targets are plain numbers and deep-dive prompts use the map form.
   */
  datatype ConfigJSON = ConfigJSON(
    dimensions: seq<ConfigDimension>,
    questions: seq<ConfigQuestion>,
    weights_by_stage: Record<Record<real>>,
    targets_by_stage: Record<Record<real>>,
    deep_dive_prompts: Record<seq<string>>,
    red_flags: seq<ConfigRedFlag>,
    action_library: Record<seq<ParetoAction>>,
    blocks: seq<BlockDef>)

  datatype Answer = Answer(question_id: string, value: Option<real>, is_na: bool)

  datatype DimensionScore = DimensionScore(
    dimension_id: string,
    name: string,
    score: real,
    target: real,
    coverage: real,
    answered: nat,
    total: nat)

  datatype EvaluatedRedFlag = EvaluatedRedFlag(
    code: string,
    name: string,
    severity: string,
    actions: seq<string>)

  datatype AssessmentResult = AssessmentResult(
    overall_score: real,
    overall_weighted: real,
    dimension_scores: seq<DimensionScore>,
    red_flags: seq<EvaluatedRedFlag>,
    deep_dive_dimensions: seq<string>)

  /** `config.weights_by_stage?.[stage] || {}`. */
  function StageWeights(config: ConfigJSON, stage: string): Record<real>
  {
    match Lookup(config.weights_by_stage, stage)
    case Some(w) => w
    case None => []
  }

  /** `config.targets_by_stage?.[stage] || {}`. */
  function StageTargets(config: ConfigJSON, stage: string): Record<real>
  {
    match Lookup(config.targets_by_stage, stage)
    case Some(t) => t
    case None => []
  }

  /** `(weights[id] as number) || 1`. */
  function WeightOf(weights: Record<real>, id: string): (w: real)
    ensures w != 0.0
  {
    OrDefault(Lookup(weights, id), 1.0)
  }

  /** No weight of the stage is negative, so every applied weight is positive. */
  predicate NonNegativeWeights(weights: Record<real>)
  {
    forall i :: 0 <= i < |weights| ==> weights[i].value >= 0.0
  }

  lemma WeightPositive(weights: Record<real>, id: string)
    requires NonNegativeWeights(weights)
    ensures WeightOf(weights, id) > 0.0
  {
  }

  /** `config.red_flags?.find((r) => r.code === code)`. */
  function FindConfigFlag(config: ConfigJSON, code: string): Option<ConfigRedFlag>
  {
    Find(config.red_flags, (r: ConfigRedFlag) => r.code == code)
  }

  /** `['high', 'critical'].includes(severity)`. */
  predicate IsHighSeverity(severity: string)
  {
    severity == "high" || severity == "critical"
  }
}
