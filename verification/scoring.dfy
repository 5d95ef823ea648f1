/**
  Scoring and red-flag evaluation: per-dimension means, coverage and
  targets, the weighted overall score, the OR-of-triggers red-flag rules,
  the deep-dive dimension list, and the assessment result that bundles them.
 */
module Scoring {
  import opened Basics
  import opened Types

  // ---------------------------------------------------------------------
  // Dimension scores
  // ---------------------------------------------------------------------

  /** `q.is_active !== false`. */
  predicate IsActive(q: ConfigQuestion)
  {
    q.is_active != Some(false)
  }

  /** The active questions of dimension `dimId`, in configuration order. */
  function DimQuestions(questions: seq<ConfigQuestion>, dimId: string): seq<ConfigQuestion>
  {
    Filter(questions, (q: ConfigQuestion) => q.dimension_id == dimId && IsActive(q))
  }

  predicate AsksAbout(qs: seq<ConfigQuestion>, questionId: string)
  {
    exists i :: 0 <= i < |qs| && qs[i].id == questionId
  }

  /** An answer that counts for a dimension: one of its questions, not N/A, with a value. */
  predicate Qualifies(qs: seq<ConfigQuestion>, a: Answer)
  {
    AsksAbout(qs, a.question_id) && !a.is_na && a.value.Some?
  }

  function DimAnswers(answers: seq<Answer>, qs: seq<ConfigQuestion>): seq<Answer>
  {
    Filter(answers, (a: Answer) => Qualifies(qs, a))
  }

  /** `a.value || 0`. */
  function ValueOf(a: Answer): real
  {
    if a.value.Some? then a.value.value else 0.0
  }

  function SumAnswers(answers: seq<Answer>): real
  {
    if |answers| == 0 then 0.0 else ValueOf(answers[0]) + SumAnswers(answers[1..])
  }

  /** The mean of the qualifying values, or 0 when there is none. */
  function Mean(answers: seq<Answer>): (m: real)
    ensures |answers| == 0 ==> m == 0.0
    ensures |answers| > 0 ==> m * |answers| as real == SumAnswers(answers)
  {
    if |answers| > 0 then SumAnswers(answers) / |answers| as real else 0.0
  }

  /** `answered / total`, or 0 when there is nothing to answer. */
  function Ratio(answered: nat, total: nat): (r: real)
    ensures total == 0 ==> r == 0.0
    ensures total > 0 ==> r * total as real == answered as real
    ensures answered <= total ==> 0.0 <= r <= 1.0
  {
    if total > 0 then answered as real / total as real else 0.0
  }

  /** The score of one configured dimension (the body of the `map` in calculateDimensionScores). */
  function ScoreDimension(questions: seq<ConfigQuestion>, answers: seq<Answer>,
                          targets: Record<real>, dim: ConfigDimension): (ds: DimensionScore)
    ensures ds.dimension_id == dim.id && ds.name == dim.name
    ensures ds.total == |DimQuestions(questions, dim.id)|
    ensures ds.answered == |DimAnswers(answers, DimQuestions(questions, dim.id))|
    ensures ds.answered == 0 ==> ds.score == 0.0
    ensures ds.answered > 0 ==>
      var m := Mean(DimAnswers(answers, DimQuestions(questions, dim.id)));
      m - 0.005 < ds.score <= m + 0.005
    ensures ds.answered > 0 ==> ds.score == Round2(Mean(DimAnswers(answers, DimQuestions(questions, dim.id))))
    ensures ds.coverage == Ratio(ds.answered, ds.total)
    ensures Lookup(targets, dim.id).Some? && Lookup(targets, dim.id).value != 0.0 ==>
              ds.target == Lookup(targets, dim.id).value
    ensures Lookup(targets, dim.id).None? || Lookup(targets, dim.id).value == 0.0 ==> ds.target == 3.5
  {
    var qs := DimQuestions(questions, dim.id);
    var qa := DimAnswers(answers, qs);
    DimensionScore(
      dim.id,
      dim.name,
      Round2(Mean(qa)),
      OrDefault(Lookup(targets, dim.id), 3.5),
      Ratio(|qa|, |qs|),
      |qa|,
      |qs|)
  }

  /** calculateDimensionScores: one score per configured dimension, in configuration order. */
  function CalculateDimensionScores(config: ConfigJSON, answers: seq<Answer>, stage: string): (r: seq<DimensionScore>)
    ensures |r| == |config.dimensions|
    ensures forall i :: 0 <= i < |r| ==>
              r[i] == ScoreDimension(config.questions, answers, StageTargets(config, stage), config.dimensions[i])
  {
    Map(config.dimensions,
        (dim: ConfigDimension) => ScoreDimension(config.questions, answers, StageTargets(config, stage), dim))
  }

  /** The answer invariant: a non-N/A answer carries a value on the 1..5 scale. */
  predicate LikertAnswers(answers: seq<Answer>)
  {
    forall i :: 0 <= i < |answers| && !answers[i].is_na && answers[i].value.Some? ==>
      1.0 <= answers[i].value.value <= 5.0
  }

  lemma {:induction false} SumAnswersBounds(answers: seq<Answer>)
    requires forall i :: 0 <= i < |answers| ==> !answers[i].is_na && answers[i].value.Some?
    requires LikertAnswers(answers)
    ensures |answers| as real <= SumAnswers(answers) <= 5.0 * |answers| as real
  {
    if |answers| > 0 {
      SumAnswersBounds(answers[1..]);
    }
  }

  lemma MeanBounds(total: real, n: real)
    requires n > 0.0 && n <= total <= 5.0 * n
    ensures 1.0 <= total / n <= 5.0
  {
  }

  lemma {:induction false} QualifyingLikert(answers: seq<Answer>, qs: seq<ConfigQuestion>)
    requires LikertAnswers(answers)
    ensures var qa := DimAnswers(answers, qs);
            LikertAnswers(qa) && forall i :: 0 <= i < |qa| ==> !qa[i].is_na && qa[i].value.Some?
  {
    var qa := DimAnswers(answers, qs);
    forall i | 0 <= i < |qa| ensures !qa[i].is_na && qa[i].value.Some? && 1.0 <= qa[i].value.value <= 5.0 {
      assert Qualifies(qs, qa[i]);
      assert qa[i] in answers;
    }
  }

  /** With answers on the 1..5 scale, an answered dimension scores within [1, 5]. */
  lemma ScoreInRange(questions: seq<ConfigQuestion>, answers: seq<Answer>, targets: Record<real>, dim: ConfigDimension)
    requires LikertAnswers(answers)
    ensures var ds := ScoreDimension(questions, answers, targets, dim);
            ds.answered > 0 ==> 1.0 <= ds.score <= 5.0
  {
    var qs := DimQuestions(questions, dim.id);
    var qa := DimAnswers(answers, qs);
    if |qa| > 0 {
      QualifyingLikert(answers, qs);
      SumAnswersBounds(qa);
      MeanBounds(SumAnswers(qa), |qa| as real);
      var m := Mean(qa);
      assert 1.0 <= m <= 5.0;
      RoundMonotone(100.0, m * 100.0);
      RoundMonotone(m * 100.0, 500.0);
      assert Round(100.0) == 100 && Round(500.0) == 500;
      assert ScoreDimension(questions, answers, targets, dim).score == Round(m * 100.0) as real / 100.0;
    }
  }

  /** Each question is answered at most once. */
  ghost predicate DistinctQuestionIds(answers: seq<Answer>)
  {
    forall i, j :: 0 <= i < j < |answers| ==> answers[i].question_id != answers[j].question_id
  }

  function QuestionIds(qs: seq<ConfigQuestion>): (ids: set<string>)
    ensures |ids| <= |qs|
    ensures forall id :: id in ids <==> AsksAbout(qs, id)
  {
    if |qs| == 0 then {}
    else
      var rest := QuestionIds(qs[1..]);
      assert forall id :: AsksAbout(qs, id) <==> id == qs[0].id || AsksAbout(qs[1..], id) by {
        forall id | AsksAbout(qs, id) && id != qs[0].id ensures AsksAbout(qs[1..], id) {
          var i :| 0 <= i < |qs| && qs[i].id == id;
          assert qs[1..][i - 1].id == id;
        }
      }
      {qs[0].id} + rest
  }

  function AnswerIds(answers: seq<Answer>): set<string>
  {
    if |answers| == 0 then {} else {answers[0].question_id} + AnswerIds(answers[1..])
  }

  lemma {:induction false} AnswerIdsAbsent(answers: seq<Answer>, id: string)
    requires forall i :: 0 <= i < |answers| ==> answers[i].question_id != id
    ensures id !in AnswerIds(answers)
  {
    if |answers| > 0 {
      AnswerIdsAbsent(answers[1..], id);
    }
  }

  lemma {:induction false} DistinctAnswerIdsCard(answers: seq<Answer>)
    requires DistinctQuestionIds(answers)
    ensures |AnswerIds(answers)| == |answers|
  {
    if |answers| > 0 {
      DistinctAnswerIdsCard(answers[1..]);
      AnswerIdsAbsent(answers[1..], answers[0].question_id);
    }
  }

  function QuestionIdOf(a: Answer): string { a.question_id }

  lemma DimAnswersDistinct(answers: seq<Answer>, qs: seq<ConfigQuestion>)
    requires DistinctQuestionIds(answers)
    ensures DistinctQuestionIds(DimAnswers(answers, qs))
  {
    FilterDistinct(answers, (a: Answer) => Qualifies(qs, a), QuestionIdOf);
  }

  lemma {:induction false} AnswerIdsMember(answers: seq<Answer>, id: string)
    requires id in AnswerIds(answers)
    ensures exists i :: 0 <= i < |answers| && answers[i].question_id == id
  {
    if answers[0].question_id != id {
      AnswerIdsMember(answers[1..], id);
      var i :| 0 <= i < |answers[1..]| && answers[1..][i].question_id == id;
      assert answers[i + 1] == answers[1..][i];
    }
  }

  /** Every question answered for a dimension is one of its questions. */
  lemma DimAnswerIdsAsked(answers: seq<Answer>, qs: seq<ConfigQuestion>)
    ensures AnswerIds(DimAnswers(answers, qs)) <= QuestionIds(qs)
  {
    var qa := DimAnswers(answers, qs);
    forall id | id in AnswerIds(qa) ensures id in QuestionIds(qs) {
      AnswerIdsMember(qa, id);
      var i :| 0 <= i < |qa| && qa[i].question_id == id;
      assert Qualifies(qs, qa[i]);
    }
  }

  /** If every question is answered at most once, coverage lies in [0, 1]. */
  lemma CoverageAtMostOne(questions: seq<ConfigQuestion>, answers: seq<Answer>, targets: Record<real>, dim: ConfigDimension)
    requires DistinctQuestionIds(answers)
    ensures var ds := ScoreDimension(questions, answers, targets, dim);
            ds.answered <= ds.total && 0.0 <= ds.coverage <= 1.0
  {
    var qs := DimQuestions(questions, dim.id);
    var qa := DimAnswers(answers, qs);
    DimAnswersDistinct(answers, qs);
    DimAnswerIdsAsked(answers, qs);
    DistinctAnswerIdsCard(qa);
    SubsetCard(AnswerIds(qa), QuestionIds(qs));
  }

  // ---------------------------------------------------------------------
  // Overall score
  // ---------------------------------------------------------------------

  /** `Object.values(weights).reduce(...) || 1`: the sum of every weight of the stage. */
  function TotalWeight(weights: Record<real>): (t: real)
    ensures t != 0.0
    ensures SumValues(weights) != 0.0 ==> t == SumValues(weights)
  {
    var t := SumValues(weights);
    if t == 0.0 then 1.0 else t
  }

  /** Σ score·weight over the given dimension scores. */
  function WeightedSum(scores: seq<DimensionScore>, weights: Record<real>): real
  {
    if |scores| == 0 then 0.0
    else scores[0].score * WeightOf(weights, scores[0].dimension_id) + WeightedSum(scores[1..], weights)
  }

  /** The source's fold: `sum + (ds.score * w) / totalWeight` term by term. */
  function WeightedTerms(scores: seq<DimensionScore>, weights: Record<real>, total: real): real
    requires total != 0.0
  {
    if |scores| == 0 then 0.0
    else scores[0].score * WeightOf(weights, scores[0].dimension_id) / total
         + WeightedTerms(scores[1..], weights, total)
  }

  /** One step of the fold: adding a / T to s / T gives (a + s) / T. */
  lemma QuotientStep(a: real, s: real, total: real, rest: real, lhs: real, sum: real)
    requires total != 0.0 && rest == s / total && lhs == a / total + rest && sum == a + s
    ensures lhs == sum / total
  {
  }

  lemma {:induction false} WeightedTermsIsQuotient(scores: seq<DimensionScore>, weights: Record<real>, total: real)
    requires total != 0.0
    ensures WeightedTerms(scores, weights, total) == WeightedSum(scores, weights) / total
  {
    if |scores| > 0 {
      WeightedTermsIsQuotient(scores[1..], weights, total);
      QuotientStep(scores[0].score * WeightOf(weights, scores[0].dimension_id),
                   WeightedSum(scores[1..], weights), total,
                   WeightedTerms(scores[1..], weights, total),
                   WeightedTerms(scores, weights, total), WeightedSum(scores, weights));
    }
  }

  /**
    calculateOverallScore: Σ score·w / T, where T is the sum of all the
    stage's weights (not only those applied), or 1 when that sum is 0.
   */
  function CalculateOverallScore(scores: seq<DimensionScore>, config: ConfigJSON, stage: string): (r: real)
    ensures r == WeightedSum(scores, StageWeights(config, stage)) / TotalWeight(StageWeights(config, stage))
  {
    var weights := StageWeights(config, stage);
    WeightedTermsIsQuotient(scores, weights, TotalWeight(weights));
    WeightedTerms(scores, weights, TotalWeight(weights))
  }

  function PlainSum(scores: seq<DimensionScore>): real
  {
    if |scores| == 0 then 0.0 else scores[0].score + PlainSum(scores[1..])
  }

  lemma {:induction false} UnitWeightedSum(scores: seq<DimensionScore>, weights: Record<real>)
    requires forall i :: 0 <= i < |weights| ==> weights[i].value == 1.0
    requires forall i :: 0 <= i < |scores| ==> Lookup(weights, scores[i].dimension_id).Some?
    ensures WeightedSum(scores, weights) == PlainSum(scores)
  {
    if |scores| > 0 {
      UnitWeightedSum(scores[1..], weights);
    }
  }

  lemma {:induction false} UnitSumValues(weights: Record<real>)
    requires forall i :: 0 <= i < |weights| ==> weights[i].value == 1.0
    ensures SumValues(weights) == |weights| as real
  {
    if |weights| > 0 {
      UnitSumValues(weights[1..]);
    }
  }

  /** With one weight 1 per dimension, the overall score is the plain mean. */
  lemma OverallOfUnitWeightsIsMean(scores: seq<DimensionScore>, weights: Record<real>)
    requires |scores| > 0 && |weights| == |scores|
    requires forall i :: 0 <= i < |weights| ==> weights[i].value == 1.0
    requires forall i :: 0 <= i < |scores| ==> Lookup(weights, scores[i].dimension_id).Some?
    ensures WeightedSum(scores, weights) / TotalWeight(weights) == PlainSum(scores) / |scores| as real
  {
    UnitWeightedSum(scores, weights);
    UnitSumValues(weights);
  }

  // ---------------------------------------------------------------------
  // Red flags
  // ---------------------------------------------------------------------

  /** `trigger.field || ''`. */
  function FieldKey(t: Trigger): string
  {
    match t.field
    case Some(f) => f
    case None => ""
  }

  function FindDimensionScore(scores: seq<DimensionScore>, id: string): Option<DimensionScore>
  {
    Find(scores, (d: DimensionScore) => d.dimension_id == id)
  }

  /** Whether one trigger matches; only three trigger types are implemented. */
  predicate TriggerMatches(t: Trigger, scores: seq<DimensionScore>, context: Record<real>)
  {
    match t.kind
    case ScoreThreshold =>
      t.dimension_id.Some? &&
      (match FindDimensionScore(scores, t.dimension_id.value)
       case Some(ds) => ds.score < OrDefault(t.threshold, 2.0)
       case None => false)
    case NumericThreshold =>
      (match Lookup(context, FieldKey(t))
       case Some(v) => v < OrDefault(t.threshold, 0.0)
       case None => false)
    case NumericMissing => Lookup(context, FieldKey(t)).None?
    case _ => false
  }

  /** The meaning of each trigger type, stated against the raw inputs. */
  lemma TriggerSemantics(t: Trigger, scores: seq<DimensionScore>, context: Record<real>)
    requires UniqueKeys(context)
    ensures t.kind == ScoreThreshold ==>
      (TriggerMatches(t, scores, context) <==>
         t.dimension_id.Some? &&
         exists i :: 0 <= i < |scores| && scores[i].dimension_id == t.dimension_id.value
                     && (forall j :: 0 <= j < i ==> scores[j].dimension_id != t.dimension_id.value)
                     && scores[i].score < OrDefault(t.threshold, 2.0))
    ensures t.kind == NumericThreshold ==>
      (TriggerMatches(t, scores, context) <==>
         exists i :: 0 <= i < |context| && context[i].key == FieldKey(t)
                     && context[i].value < OrDefault(t.threshold, 0.0))
    ensures t.kind == NumericMissing ==>
      (TriggerMatches(t, scores, context) <==> forall i :: 0 <= i < |context| ==> context[i].key != FieldKey(t))
    ensures t.kind !in {ScoreThreshold, NumericThreshold, NumericMissing} ==> !TriggerMatches(t, scores, context)
  {
    if t.kind == ScoreThreshold && t.dimension_id.Some? {
      var id := t.dimension_id.value;
      forall i | 0 <= i < |scores| && scores[i].dimension_id == id
                 && (forall j :: 0 <= j < i ==> scores[j].dimension_id != id)
        ensures FindDimensionScore(scores, id) == Some(scores[i])
      {
        var o := FindDimensionScore(scores, id);
        var k :| 0 <= k < |scores| && scores[k] == o.value && scores[k].dimension_id == id
                 && forall j :: 0 <= j < k ==> scores[j].dimension_id != id;
        assert k == i;
      }
    }
    if t.kind == NumericThreshold {
      forall i | 0 <= i < |context| && context[i].key == FieldKey(t)
        ensures Lookup(context, FieldKey(t)) == Some(context[i].value)
      {
        LookupUnique(context, i);
      }
    }
  }

  /** A flag fires iff at least one of its triggers matches. */
  predicate Fires(rf: ConfigRedFlag, scores: seq<DimensionScore>, context: Record<real>)
  {
    Any(rf.triggers, (t: Trigger) => TriggerMatches(t, scores, context))
  }

  /** Removing a trigger that does not match never changes whether a flag fires. */
  lemma FiresWithoutNonMatchingTrigger(rf: ConfigRedFlag, k: nat, scores: seq<DimensionScore>, context: Record<real>)
    requires k < |rf.triggers| && !TriggerMatches(rf.triggers[k], scores, context)
    ensures Fires(rf.(triggers := rf.triggers[..k] + rf.triggers[k + 1..]), scores, context)
            == Fires(rf, scores, context)
  {
    AnyWithout(rf.triggers, k, (t: Trigger) => TriggerMatches(t, scores, context));
  }

  function Project(rf: ConfigRedFlag): EvaluatedRedFlag
  {
    EvaluatedRedFlag(rf.code, rf.name, rf.severity, rf.actions)
  }

  /**
    evaluateRedFlags: the projections of the configured flags that fire, in
    configuration order. The answers are accepted and never consulted.
   */
  function EvaluateRedFlags(config: ConfigJSON, scores: seq<DimensionScore>, answers: seq<Answer>,
                            context: Record<real>): (r: seq<EvaluatedRedFlag>)
    ensures |r| <= |config.red_flags|
    ensures forall k :: 0 <= k < |r| ==>
              exists i :: 0 <= i < |config.red_flags| && Fires(config.red_flags[i], scores, context)
                          && r[k] == Project(config.red_flags[i])
    ensures forall i :: 0 <= i < |config.red_flags| && Fires(config.red_flags[i], scores, context) ==>
              Project(config.red_flags[i]) in r
  {
    var fired := Filter(config.red_flags, (rf: ConfigRedFlag) => Fires(rf, scores, context));
    assert forall i :: 0 <= i < |config.red_flags| && Fires(config.red_flags[i], scores, context) ==>
             config.red_flags[i] in fired;
    Map(fired, Project)
  }

  /** The fired flags appear in configuration order, each at most as often as configured. */
  lemma RedFlagsInConfigOrder(config: ConfigJSON, scores: seq<DimensionScore>, answers: seq<Answer>,
                              context: Record<real>)
    ensures IsSubsequence(EvaluateRedFlags(config, scores, answers, context), Map(config.red_flags, Project))
  {
    var fired := Filter(config.red_flags, (rf: ConfigRedFlag) => Fires(rf, scores, context));
    FilterSubsequence(config.red_flags, (rf: ConfigRedFlag) => Fires(rf, scores, context));
    MapSubsequence(fired, config.red_flags, Project);
  }

  /** The red flags depend on the configuration, the scores and the numeric context only. */
  lemma RedFlagsIgnoreAnswers(config: ConfigJSON, scores: seq<DimensionScore>, a1: seq<Answer>, a2: seq<Answer>,
                              context: Record<real>)
    ensures EvaluateRedFlags(config, scores, a1, context) == EvaluateRedFlags(config, scores, a2, context)
  {
  }

  // ---------------------------------------------------------------------
  // Deep-dive dimensions
  // ---------------------------------------------------------------------

  ghost predicate NoDuplicates(s: seq<string>)
  {
    forall i, j :: 0 <= i < j < |s| ==> s[i] != s[j]
  }

  /** The dimensions scored strictly between 0 and 3, in dimension order. */
  function LowScoreDimensions(scores: seq<DimensionScore>): (r: seq<string>)
    ensures forall d :: d in r <==> exists i :: 0 <= i < |scores| && scores[i].dimension_id == d
                                                && 0.0 < scores[i].score < 3.0
  {
    var low := Filter(scores, (ds: DimensionScore) => 0.0 < ds.score < 3.0);
    Map(low, (ds: DimensionScore) => ds.dimension_id)
  }

  lemma LowScoreDimensionsCons(scores: seq<DimensionScore>)
    requires |scores| > 0
    ensures LowScoreDimensions(scores)
            == (if 0.0 < scores[0].score < 3.0 then [scores[0].dimension_id] else []) + LowScoreDimensions(scores[1..])
  {
    var low := Filter(scores[1..], (ds: DimensionScore) => 0.0 < ds.score < 3.0);
    assert Filter(scores, (ds: DimensionScore) => 0.0 < ds.score < 3.0)
           == if 0.0 < scores[0].score < 3.0 then [scores[0]] + low else low;
    if 0.0 < scores[0].score < 3.0 {
      assert ([scores[0]] + low)[1..] == low;
    }
  }

  lemma {:induction false} LowScoreDimensionsDistinct(scores: seq<DimensionScore>)
    requires forall i, j :: 0 <= i < j < |scores| ==> scores[i].dimension_id != scores[j].dimension_id
    ensures NoDuplicates(LowScoreDimensions(scores))
  {
    if |scores| > 0 {
      var tail := scores[1..];
      var rest := LowScoreDimensions(tail);
      LowScoreDimensionsDistinct(tail);
      LowScoreDimensionsCons(scores);
      if 0.0 < scores[0].score < 3.0 {
        forall j | 0 <= j < |rest| ensures rest[j] != scores[0].dimension_id {
          assert rest[j] in rest;
          var i :| 0 <= i < |tail| && tail[i].dimension_id == rest[j] && 0.0 < tail[i].score < 3.0;
          assert tail[i] == scores[i + 1];
        }
      }
    }
  }

  /** A dimension named (truthily) by a trigger. */
  predicate NamesDimension(t: Trigger, d: string)
  {
    t.dimension_id == Some(d) && d != ""
  }

  /** Some trigger of the list names the dimension. */
  predicate TriggersName(triggers: seq<Trigger>, d: string)
  {
    exists j :: 0 <= j < |triggers| && NamesDimension(triggers[j], d)
  }

  lemma TriggersNameSplit(triggers: seq<Trigger>)
    requires |triggers| > 0
    ensures forall d :: TriggersName(triggers, d) <==> NamesDimension(triggers[0], d) || TriggersName(triggers[1..], d)
  {
    forall d | TriggersName(triggers, d) && !NamesDimension(triggers[0], d)
      ensures TriggersName(triggers[1..], d)
    {
      var j :| 0 <= j < |triggers| && NamesDimension(triggers[j], d);
      assert triggers[1..][j - 1] == triggers[j];
    }
    forall d | TriggersName(triggers[1..], d) ensures TriggersName(triggers, d) {
      var j :| 0 <= j < |triggers| - 1 && NamesDimension(triggers[1..][j], d);
      assert triggers[1..][j] == triggers[j + 1];
    }
  }

  /** Appends each dimension the triggers name that is not yet present. */
  function AddTriggerDimensions(list: seq<string>, triggers: seq<Trigger>): (r: seq<string>)
    decreases |triggers|
    ensures list <= r
    ensures forall d :: d in r <==> d in list || TriggersName(triggers, d)
    ensures NoDuplicates(list) ==> NoDuplicates(r)
  {
    if |triggers| == 0 then list
    else
      var t := triggers[0];
      var next := if t.dimension_id.Some? && t.dimension_id.value != "" && t.dimension_id.value !in list
                  then list + [t.dimension_id.value] else list;
      TriggersNameSplit(triggers);
      AddTriggerDimensions(next, triggers[1..])
  }

  /** The configured rule of the flag with this code names the dimension in a trigger. */
  predicate RuleNames(config: ConfigJSON, code: string, d: string)
  {
    match FindConfigFlag(config, code)
    case Some(cfg) => TriggersName(cfg.triggers, d)
    case None => false
  }

  /** A dimension named by a trigger of the configured rule of a fired flag. */
  predicate FlaggedDimension(config: ConfigJSON, flags: seq<EvaluatedRedFlag>, d: string)
  {
    exists i :: 0 <= i < |flags| && RuleNames(config, flags[i].code, d)
  }

  lemma FlaggedDimensionSplit(config: ConfigJSON, flags: seq<EvaluatedRedFlag>)
    requires |flags| > 0
    ensures forall d :: FlaggedDimension(config, flags, d) <==>
                        RuleNames(config, flags[0].code, d) || FlaggedDimension(config, flags[1..], d)
  {
    forall d | FlaggedDimension(config, flags, d) && !RuleNames(config, flags[0].code, d)
      ensures FlaggedDimension(config, flags[1..], d)
    {
      var i :| 0 <= i < |flags| && RuleNames(config, flags[i].code, d);
      assert flags[1..][i - 1] == flags[i];
    }
    forall d | FlaggedDimension(config, flags[1..], d) ensures FlaggedDimension(config, flags, d) {
      var i :| 0 <= i < |flags| - 1 && RuleNames(config, flags[1..][i].code, d);
      assert flags[1..][i] == flags[i + 1];
    }
  }

  function AddFlagDimensions(config: ConfigJSON, list: seq<string>, flags: seq<EvaluatedRedFlag>): (r: seq<string>)
    decreases |flags|
    ensures list <= r
    ensures forall d :: d in r <==> d in list || FlaggedDimension(config, flags, d)
    ensures NoDuplicates(list) ==> NoDuplicates(r)
  {
    if |flags| == 0 then list
    else
      var next := match FindConfigFlag(config, flags[0].code)
                  case Some(cfg) => AddTriggerDimensions(list, cfg.triggers)
                  case None => list;
      FlaggedDimensionSplit(config, flags);
      AddFlagDimensions(config, next, flags[1..])
  }

  /** The position of the first `x` in `xs`, or `|xs|` when there is none. */
  function IndexOf(xs: seq<string>, x: string): (k: nat)
    ensures k <= |xs|
    ensures k < |xs| <==> x in xs
    ensures k < |xs| ==> xs[k] == x
    ensures forall j :: 0 <= j < k ==> xs[j] != x
  {
    if |xs| == 0 then 0 else if xs[0] == x then 0 else IndexOf(xs[1..], x) + 1
  }

  /**
    `xs.forEach(x => { if (!list.includes(x)) list.push(x) })`: the ids of
    `xs` not listed yet are appended, each once, in the order they first
    occur in `xs`.
   */
  function PushAbsent(list: seq<string>, xs: seq<string>): (r: seq<string>)
    decreases |xs|
    ensures list <= r
    ensures forall d :: d in r <==> d in list || d in xs
    ensures forall i :: |list| <= i < |r| ==> r[i] !in list
    ensures forall i, j :: |list| <= i < j < |r| ==> IndexOf(xs, r[i]) < IndexOf(xs, r[j])
  {
    if |xs| == 0 then list
    else
      var next := if xs[0] in list then list else list + [xs[0]];
      var r := PushAbsent(next, xs[1..]);
      forall i | |next| <= i < |r|
        ensures r[i] != xs[0] && IndexOf(xs, r[i]) == IndexOf(xs[1..], r[i]) + 1
      {
        assert xs[0] in next && r[i] !in next;
      }
      forall i, j | |list| <= i < j < |r| ensures IndexOf(xs, r[i]) < IndexOf(xs, r[j]) {
        if i < |next| {
          assert r[i] == next[i] == xs[0];
        }
      }
      r
  }

  lemma {:induction false} PushAbsentConcat(list: seq<string>, xs: seq<string>, ys: seq<string>)
    decreases |xs|
    ensures PushAbsent(list, xs + ys) == PushAbsent(PushAbsent(list, xs), ys)
  {
    if |xs| == 0 {
      assert xs + ys == ys;
    } else {
      var next := if xs[0] in list then list else list + [xs[0]];
      assert (xs + ys)[0] == xs[0] && (xs + ys)[1..] == xs[1..] + ys;
      PushAbsentConcat(next, xs[1..], ys);
    }
  }

  /** The dimension ids the triggers name, in trigger order, repeats kept. */
  function NamedIds(triggers: seq<Trigger>): (xs: seq<string>)
    ensures forall d :: d in xs <==> TriggersName(triggers, d)
  {
    if |triggers| == 0 then []
    else
      TriggersNameSplit(triggers);
      var t := triggers[0];
      (if t.dimension_id.Some? && t.dimension_id.value != "" then [t.dimension_id.value] else [])
      + NamedIds(triggers[1..])
  }

  /** The ids named by the configured rules of the fired flags, flag by flag and trigger by trigger. */
  function FlagNamedIds(config: ConfigJSON, flags: seq<EvaluatedRedFlag>): (xs: seq<string>)
    ensures forall d :: d in xs <==> FlaggedDimension(config, flags, d)
  {
    if |flags| == 0 then []
    else
      FlaggedDimensionSplit(config, flags);
      (match FindConfigFlag(config, flags[0].code)
       case Some(cfg) => NamedIds(cfg.triggers)
       case None => [])
      + FlagNamedIds(config, flags[1..])
  }

  /** The trigger loop appends the named ids exactly as a push-if-absent pass over them. */
  lemma {:induction false} AddTriggerIsPush(list: seq<string>, triggers: seq<Trigger>)
    decreases |triggers|
    ensures AddTriggerDimensions(list, triggers) == PushAbsent(list, NamedIds(triggers))
  {
    if |triggers| > 0 {
      var t := triggers[0];
      var next := if t.dimension_id.Some? && t.dimension_id.value != "" && t.dimension_id.value !in list
                  then list + [t.dimension_id.value] else list;
      AddTriggerIsPush(next, triggers[1..]);
      if t.dimension_id.Some? && t.dimension_id.value != "" {
        assert NamedIds(triggers) == [t.dimension_id.value] + NamedIds(triggers[1..]);
      } else {
        assert NamedIds(triggers) == NamedIds(triggers[1..]);
      }
    }
  }

  /** The flag loop is one push-if-absent pass over all the ids the fired flags' rules name. */
  lemma {:induction false} AddFlagIsPush(config: ConfigJSON, list: seq<string>, flags: seq<EvaluatedRedFlag>)
    decreases |flags|
    ensures AddFlagDimensions(config, list, flags) == PushAbsent(list, FlagNamedIds(config, flags))
  {
    if |flags| > 0 {
      var named := match FindConfigFlag(config, flags[0].code)
                   case Some(cfg) => NamedIds(cfg.triggers)
                   case None => [];
      var next := match FindConfigFlag(config, flags[0].code)
                  case Some(cfg) => AddTriggerDimensions(list, cfg.triggers)
                  case None => list;
      if FindConfigFlag(config, flags[0].code).Some? {
        AddTriggerIsPush(list, FindConfigFlag(config, flags[0].code).value.triggers);
      }
      assert next == PushAbsent(list, named);
      AddFlagIsPush(config, next, flags[1..]);
      PushAbsentConcat(list, named, FlagNamedIds(config, flags[1..]));
    }
  }

  /**
    The deep-dive list: the low-scoring dimensions first, then each dimension
    named by a trigger of a fired flag's rule, without repeating one.
   */
  function DeepDiveDimensions(config: ConfigJSON, scores: seq<DimensionScore>, flags: seq<EvaluatedRedFlag>): (r: seq<string>)
    ensures LowScoreDimensions(scores) <= r
    ensures forall d :: d in r <==> d in LowScoreDimensions(scores) || FlaggedDimension(config, flags, d)
    ensures NoDuplicates(LowScoreDimensions(scores)) ==> NoDuplicates(r)
  {
    AddFlagDimensions(config, LowScoreDimensions(scores), flags)
  }

  /**
    The flagged dimensions follow the low-scoring ones in the order the fired
    flags, and within a flag its rule's triggers, first name them.
   */
  lemma DeepDiveOrder(config: ConfigJSON, scores: seq<DimensionScore>, flags: seq<EvaluatedRedFlag>)
    ensures var r := DeepDiveDimensions(config, scores, flags);
            forall i, j :: |LowScoreDimensions(scores)| <= i < j < |r| ==>
              IndexOf(FlagNamedIds(config, flags), r[i]) < IndexOf(FlagNamedIds(config, flags), r[j])
  {
    AddFlagIsPush(config, LowScoreDimensions(scores), flags);
  }

  // ---------------------------------------------------------------------
  // Assessment result
  // ---------------------------------------------------------------------

  /** calculateAssessmentResult: a pure function of configuration, answers, stage and context. */
  function CalculateAssessmentResult(config: ConfigJSON, answers: seq<Answer>, stage: string,
                                     context: Record<real>): (r: AssessmentResult)
    ensures r.dimension_scores == CalculateDimensionScores(config, answers, stage)
    ensures r.overall_weighted
            == WeightedSum(r.dimension_scores, StageWeights(config, stage)) / TotalWeight(StageWeights(config, stage))
    ensures r.overall_weighted - 0.005 < r.overall_score <= r.overall_weighted + 0.005
    ensures r.overall_score == Round2(r.overall_weighted)
    ensures r.red_flags == EvaluateRedFlags(config, r.dimension_scores, answers, context)
    ensures r.deep_dive_dimensions == DeepDiveDimensions(config, r.dimension_scores, r.red_flags)
  {
    var scores := CalculateDimensionScores(config, answers, stage);
    var overall := CalculateOverallScore(scores, config, stage);
    var flags := EvaluateRedFlags(config, scores, answers, context);
    var rounded := Round2(overall);
    AssessmentResult(rounded, overall, scores, flags, DeepDiveDimensions(config, scores, flags))
  }
}
