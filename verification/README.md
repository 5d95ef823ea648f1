# Startup readiness scoring and prioritisation engine, in Dafny

This project models the engine that turns a founder questionnaire into an
assessment report. The engine is pure and synchronous. Its input is a
questionnaire configuration, the answers, a funding-stage key and a map of
numeric context fields. It has three layers:

- **Scoring** (`Scoring`, `src/utils/scoring.ts`):
  - per-dimension mean, coverage and target;
  - the weighted overall score;
  - the red-flag rules, each firing when any one of its triggers matches;
  - the deep-dive dimension list.
- **Report helpers** (`ReportHelpers`, `src/utils/report-helpers.ts`):
  - the 0–100 scale and the maturity levels;
  - completeness and confidence;
  - block roll-ups;
  - red-flag penalties and council risk;
  - the prioritised gaps;
  - the three-wave roadmap;
  - the facts the two narratives are built from.
- **Pareto action engine** (`ParetoEngine`, `src/utils/pareto-engine.ts`):
  - action scoring and ranking;
  - the Top 5 selection, with a forced red-flag pick and best-effort block coverage;
  - the three-item meeting agenda;
  - the risk/impact 2×2 matrix.

Supporting modules:
- `Basics`: the option type, JavaScript objects as ordered entry lists, the `||` fallback on numbers, `Math.round`, and sequence helpers.
- `Sorting`: `Array.prototype.sort` as a stable descending insertion sort.
- `Types`: the configuration, answer and result shapes of `src/types/darwin.ts`.

How the source's semantics are modelled:
- Numbers are `real`.
- `Math.round(x)` is `⌊x + 0.5⌋`.
- `x || d` on an optional number falls back to `d` on both `undefined` and `0`.
- A JavaScript object is the list `Object.entries` would give. Lookup returns the first entry with the key.
- Optional lists (`red_flags`, `blocks`, `action_library`, `addresses_red_flags`) are empty when absent. Every use in the source treats `undefined` and `[]` alike.

Behaviour the code has and the model keeps:
- **Overall score denominator.** It is the sum of all weights in the stage's weight map, not of the weights applied to the dimensions. It falls back to 1 when that sum is 0 (`Scoring.TotalWeight`).
- **Penalty for `critical`.** A `critical` flag has no default penalty and falls back to 6 (`ReportHelpers.DefaultPenaltyValues`).
- **Potential.** The potential of a gap is computed from the stage target or the dimension's target, never from a separate `potential` field. For scores of the same stage it equals the target (`ReportHelpers.PotentialEqualsTarget`).
- **No-data score.** A dimension without data (score 0) maps to −25 on the 100-scale (`ReportHelpers.ScoreTo100Anchors`).
- **Gap lookup in the Pareto scoring.** It keeps the last gap per dimension, as `new Map(entries)` does (`ParetoEngine.LastGapIndex`).
- **Block coverage in the Top 5 is best effort.** Which blocks to repair is decided once, after the fill. Each repair evicts the fifth pick. So a growth action inserted by the first repair can be evicted by the foundation repair (`ParetoEngine.GrowthPickEvicted`). Only the last repair, for the execution block, is never undone (`ParetoEngine.SelectTop5CoversExecution`).
- **Prompts on the third agenda item.** The third-gap item has no generic prompt to fall back on, unlike the first two (`ParetoEngine.AgendaThirdGap`).

## Model

| member | source | states |
|---|---|---|
| Basics.Round | src/utils/report-helpers.ts:5 | `Math.round` lands within half a unit of its argument, rounding halves up |
| Basics.Round2 | src/utils/scoring.ts:25 | the result is a whole number of hundredths, at most 0.005 from the input |
| Basics.Round1 | src/utils/pareto-engine.ts:113 | the result is a whole number of tenths, at most 0.05 from the input |
| Types.WeightOf | src/utils/scoring.ts:43 | an applied weight is never 0: a missing or zero weight counts as 1 |
| Types.WeightPositive | src/utils/report-helpers.ts:71 | with no negative stage weight, every applied weight is positive |
| Sorting.SortDesc | src/utils/report-helpers.ts:139 | the sort returns a permutation of its input, ordered by key from largest to smallest |
| Sorting.SortDescStable | src/utils/pareto-engine.ts:121 | for every key value, the elements carrying it keep their input order |
| Sorting.SortDescAll | src/utils/report-helpers.ts:139 | a property of every input element holds of every sorted element |
| Sorting.FirstMaxIndex | src/utils/pareto-engine.ts:227-230 | the position of an element with the largest key, with no earlier element as large |
| Sorting.HeadOfSortDesc | src/utils/pareto-engine.ts:227-230 | the head of the sorted list is the earliest input element with the largest key |
| Scoring.Mean | src/utils/scoring.ts:18-20 | the mean is 0 without answers; otherwise it times the count gives the sum of the values |
| Scoring.Ratio | src/utils/scoring.ts:27 | coverage is 0 without questions; otherwise it times the question count gives the answer count; it lies in [0, 1] when answered ≤ total |
| Scoring.ScoreDimension | src/utils/scoring.ts:10-30 | counts the dimension's active questions and qualifying answers; the score is 0 without answers and otherwise their mean rounded to two decimals; the target is the nonzero stage target, else 3.5 |
| Scoring.CalculateDimensionScores | src/utils/scoring.ts:3-32 | one score per configured dimension, in configuration order, each computed with the stage's targets |
| Scoring.SumAnswersBounds | src/utils/scoring.ts:19 | answers on the 1..5 scale sum to between n and 5n |
| Scoring.QualifyingLikert | src/utils/scoring.ts:14-16 | qualifying answers are non-NA, non-null and keep the 1..5 scale |
| Scoring.ScoreInRange | src/utils/scoring.ts:18-25 | with answers on the 1..5 scale, an answered dimension scores within [1, 5] |
| Scoring.DimAnswersDistinct | src/utils/scoring.ts:14-16 | filtering keeps answers to distinct questions distinct |
| Scoring.DimAnswerIdsAsked | src/utils/scoring.ts:14-16 | every qualifying answer is to one of the dimension's active questions |
| Scoring.CoverageAtMostOne | src/utils/scoring.ts:14-29 | with at most one answer per question, answered ≤ total and coverage lies in [0, 1] |
| Scoring.TotalWeight | src/utils/scoring.ts:40 | the denominator is the sum of all weights of the stage's map, or 1 when that sum is 0 |
| Scoring.WeightedTermsIsQuotient | src/utils/scoring.ts:42-45 | adding each term already divided by the total gives the weighted sum divided by the total |
| Scoring.CalculateOverallScore | src/utils/scoring.ts:34-46 | the overall score is the weighted sum of the dimension scores over the sum of all stage weights |
| Scoring.OverallOfUnitWeightsIsMean | src/utils/scoring.ts:39-45 | with weight 1 for exactly the scored dimensions, the overall score is the plain mean |
| Scoring.TriggerSemantics | src/utils/scoring.ts:57-72 | score_threshold matches iff it names a dimension and the first score with that id is below threshold or 2; numeric_threshold matches iff the field is present and below threshold or 0; numeric_missing iff the field is absent; every other type never matches |
| Scoring.FiresWithoutNonMatchingTrigger | src/utils/scoring.ts:57 | a flag fires iff some trigger matches: dropping a non-matching trigger changes nothing |
| Scoring.EvaluateRedFlags | src/utils/scoring.ts:48-80 | every result is a fired rule projected to code, label, severity and actions, and every fired rule appears |
| Scoring.RedFlagsInConfigOrder | src/utils/scoring.ts:56-79 | the fired flags are a subsequence of the projected rules, in configuration order |
| Scoring.RedFlagsIgnoreAnswers | src/utils/scoring.ts:48-53 | the answers argument has no influence on which flags fire |
| Scoring.LowScoreDimensions | src/utils/scoring.ts:92-94 | exactly the dimensions with a score strictly between 0 and 3 |
| Scoring.LowScoreDimensionsDistinct | src/utils/scoring.ts:92-94 | distinct dimension ids give a list without duplicates |
| Scoring.AddTriggerDimensions | src/utils/scoring.ts:99-103 | appends exactly the trigger dimensions not yet listed, keeping the list as a prefix and free of duplicates |
| Scoring.AddFlagDimensions | src/utils/scoring.ts:97-104 | appends exactly the dimensions named by the rules of the fired flags, without duplicates |
| Scoring.DeepDiveDimensions | src/utils/scoring.ts:92-104 | the low-score dimensions first, then the flagged ones; a dimension is listed iff it is low-scoring or flagged; no duplicates |
| Scoring.PushAbsent | src/utils/scoring.ts:100-102 | appends the ids not yet listed, each once, in the order of their first occurrence, keeping the list as a prefix |
| Scoring.PushAbsentConcat | src/utils/scoring.ts:97-104 | one push-if-absent pass over two id lists equals two passes in a row |
| Scoring.NamedIds | src/utils/scoring.ts:100 | the truthy trigger dimension ids, exactly those the triggers name |
| Scoring.FlagNamedIds | src/utils/scoring.ts:97-104 | the ids named by the fired flags' configured rules, exactly the flagged dimensions |
| Scoring.AddTriggerIsPush | src/utils/scoring.ts:99-103 | the trigger loop is a push-if-absent pass over the named ids |
| Scoring.AddFlagIsPush | src/utils/scoring.ts:97-104 | the flag loop is one push-if-absent pass over the ids every fired flag's rule names |
| Scoring.DeepDiveOrder | src/utils/scoring.ts:97-104 | flagged dimensions are appended in the order the fired flags, trigger by trigger, first name them |
| Scoring.CalculateAssessmentResult | src/utils/scoring.ts:82-113 | bundles the dimension scores, the unrounded overall score, the overall score rounded to two decimals, the fired flags and the deep-dive list |
| ReportHelpers.ScoreTo100 | src/utils/report-helpers.ts:4-6 | the 1..5 score mapped linearly to 0..100, within half a point |
| ReportHelpers.ScoreTo100Monotone | src/utils/report-helpers.ts:4-6 | a higher score never maps lower |
| ReportHelpers.ScoreTo100Anchors | src/utils/report-helpers.ts:4-6 | 1 maps to 0, 4 to 75, 5 to 100, and 0 to −25 |
| ReportHelpers.ScoreTo100Range | src/utils/report-helpers.ts:4-6 | scores in [1, 5] map into [0, 100] |
| ReportHelpers.GetLevel | src/utils/report-helpers.ts:8-13 | each level holds exactly on its band: ≥75, [55, 75), [35, 55), below 35 |
| ReportHelpers.GetLevelMonotone | src/utils/report-helpers.ts:8-13 | a higher score never gets a lower level |
| ReportHelpers.SumAnsweredAtMostTotal | src/utils/report-helpers.ts:25-26 | when every dimension has answered ≤ total, so do the sums |
| ReportHelpers.GetCompleteness | src/utils/report-helpers.ts:24-31 | pct is within half a point of 100·answered/total, 0 without questions, in [0, 100]; confidence is high iff pct ≥ 80, medium iff 50 ≤ pct < 80, low otherwise |
| ReportHelpers.GetBlocks | src/utils/report-helpers.ts:46-48 | the configured blocks when there are any, otherwise the three default blocks |
| ReportHelpers.WeightedAsDot | src/utils/report-helpers.ts:71-72 | the block's total weight and weighted score are the sum and dot product of the applied weights |
| ReportHelpers.AverageWithin | src/utils/report-helpers.ts:71-72 | with non-negative weights the weighted average of scores in [lo, hi] lies in [lo, hi] |
| ReportHelpers.LowestIndex | src/utils/report-helpers.ts:74 | the member with the minimal score, the first in input order among ties |
| ReportHelpers.BlockAverageBetween | src/utils/report-helpers.ts:71-73 | the block's 0-100 score lies between those of its lowest and highest member |
| ReportHelpers.BlockScore100 | src/utils/report-helpers.ts:71-73 | scoreTo100 of the dot product of scores and default-1 weights over the positive weight sum, between the lowest and highest member's |
| ReportHelpers.ComputeBlock | src/utils/report-helpers.ts:66-76 | an empty block scores 0 with no lowest dimension; otherwise its score is scoreTo100 of the members' scores averaged with the default-1 weights, lies between its members', and the lowest dimension is the first minimal member |
| ReportHelpers.ComputeBlocks | src/utils/report-helpers.ts:59-77 | one result per block, in block order |
| ReportHelpers.DefaultPenalty | src/utils/report-helpers.ts:80 | a default penalty exists exactly for high, medium_high, medium and low |
| ReportHelpers.GetPenalty | src/utils/report-helpers.ts:82-85 | the configured penalty points win; otherwise the severity's default, else 6 |
| ReportHelpers.DefaultPenaltyValues | src/utils/report-helpers.ts:80-84 | without configured points the penalty is 15, 10, 6 or 3; critical gets 6 and high 15 |
| ReportHelpers.TotalPenaltyAppend | src/utils/report-helpers.ts:88 | the total penalty adds up flag by flag |
| ReportHelpers.ComputeCouncilRisk | src/utils/report-helpers.ts:87-90 | 100 minus the total penalty, clamped into [0, 100] |
| ReportHelpers.CouncilRiskAntitone | src/utils/report-helpers.ts:87-90 | one more flag with a non-negative penalty never raises the council risk score |
| ReportHelpers.CouncilRiskExample | src/utils/report-helpers.ts:80-90 | a high and a critical flag without configured points leave 79 |
| ReportHelpers.GetSeverityCategory | src/utils/report-helpers.ts:92-96 | high and critical are critical; medium_high and medium need attention; everything else is monitored |
| ReportHelpers.GapOf | src/utils/report-helpers.ts:120-137 | the gap is the potential minus the score on the 100-scale, never negative; its priority is the gap times the applied weight |
| ReportHelpers.CandidateGaps | src/utils/report-helpers.ts:118-138 | only gaps of positive size survive the filters |
| ReportHelpers.ComputeGaps | src/utils/report-helpers.ts:111-140 | a permutation of the positive gaps of the covered dimensions, by priority from highest to lowest |
| ReportHelpers.ComputeGapsSound | src/utils/report-helpers.ts:118-138 | every gap comes from a dimension with positive coverage |
| ReportHelpers.ComputeGapsComplete | src/utils/report-helpers.ts:118-138 | every covered dimension with a positive gap is listed |
| ReportHelpers.ComputeGapsStable | src/utils/report-helpers.ts:139 | gaps of equal priority keep dimension order |
| ReportHelpers.ScoredPotential | src/utils/report-helpers.ts:122-123 | when the dimension's target is the stage target, potential and target coincide |
| ReportHelpers.PotentialEqualsTarget | src/utils/report-helpers.ts:121-123 | for scores computed for the stage, every gap's potential equals its target |
| ReportHelpers.FlagTitle | src/utils/report-helpers.ts:160 | a flag item is titled by its first action, or by its label when that is missing or empty |
| ReportHelpers.FlagItems | src/utils/report-helpers.ts:158-162 | at most three items, for the high, critical and medium_high flags in flag order, all in wave 1 |
| ReportHelpers.CountWaveLayout | src/utils/report-helpers.ts:167 | with items laid out three per wave, wave w holds the existing items 3(w−1)..3w−1 |
| ReportHelpers.LaidExtend | src/utils/report-helpers.ts:167-170 | appending the next unmentioned gap in the current wave keeps the layout |
| ReportHelpers.Layout | src/utils/report-helpers.ts:164-182 | the flag items followed by gaps, at most nine items |
| ReportHelpers.LayoutAt | src/utils/report-helpers.ts:164-182 | item k is flag item k, or gap k − nf in wave k / 3 + 1 |
| ReportHelpers.PlannedRoadmap | src/utils/report-helpers.ts:155-184 | the flag items open the roadmap; at most nine items |
| ReportHelpers.PlannedRoadmapAt | src/utils/report-helpers.ts:155-184 | the roadmap holds every flag item and then as many unmentioned gaps as fit, item k in wave k / 3 + 1 |
| ReportHelpers.LaidIsPlanned | src/utils/report-helpers.ts:164-184 | a layout of full length is the planned roadmap |
| ReportHelpers.FillWave | src/utils/report-helpers.ts:167-182 | one loop adds unmentioned gaps in order until its wave holds three items or the gaps run out |
| ReportHelpers.GenerateRoadmap | src/utils/report-helpers.ts:150-185 | the three loops produce exactly the planned roadmap |
| ReportHelpers.RoadmapWaves | src/utils/report-helpers.ts:158-184 | waves never decrease along the list, each wave has at most three items, no item is past wave 3, and the length is min(9, flag items + unmentioned gaps) |
| ReportHelpers.GapActionsSpec | src/utils/report-helpers.ts:165 | the roadmap gaps are the gaps no flag item mentions, each once, in priority order |
| ReportHelpers.RankedStrengths | src/utils/report-helpers.ts:197-201 | the covered dimensions, by score from highest to lowest |
| ReportHelpers.StrengthsAreTop | src/utils/report-helpers.ts:197-201 | no covered dimension outside the two strengths scores higher than a strength |
| ReportHelpers.CountHigh | src/utils/report-helpers.ts:207 | counts the high and critical flags: zero iff none |
| ReportHelpers.OverallNarrative | src/utils/report-helpers.ts:188-211 | the facts the overall narrative states: level of the overall score, two strengths, two top gaps, the count of serious flags |
| ReportHelpers.DimensionNarrative | src/utils/report-helpers.ts:213-222 | coverage within half a point of its percentage; priority advice below 55, developing below 75, otherwise keep |
| ReportHelpers.AdviceMatchesLevel | src/utils/report-helpers.ts:213-222 | the advice follows the level: priority for Inicial and Em evolução, developing for Estruturado, keep for Avançado |
| ParetoEngine.GetActionLibrary | src/utils/pareto-engine.ts:70-74 | the configured library when it has a key, otherwise the built-in one; never empty |
| ParetoEngine.DefaultLibraryKeys | src/utils/pareto-engine.ts:28-67 | the built-in library covers the nine dimensions, block by block |
| ParetoEngine.DefaultLibraryDimensions | src/utils/pareto-engine.ts:28-67 | every built-in action belongs to the dimension it is listed under |
| ParetoEngine.DefaultLibraryCount | src/utils/pareto-engine.ts:28-67 | the built-in library holds twenty actions |
| ParetoEngine.EffortFactor | src/utils/pareto-engine.ts:99 | S costs 1, L costs 3, and M or anything else costs 2 |
| ParetoEngine.HighFlagCodes | src/utils/pareto-engine.ts:87-89 | exactly the codes of the fired high and critical flags |
| ParetoEngine.LastGapIndex | src/utils/pareto-engine.ts:86-94 | the last gap of the dimension, as a map built from the list keeps it |
| ParetoEngine.LastGap | src/utils/pareto-engine.ts:86-94 | a gap of the dimension, and none exactly when the dimension has no gap |
| ParetoEngine.PriorityFactor | src/utils/pareto-engine.ts:95-100 | the gap's priority, or 1 when there is no gap or its priority is 0 |
| ParetoEngine.DimLabel | src/utils/pareto-engine.ts:96 | the label of the first dimension score with the key when that label is non-empty, otherwise the key itself |
| ParetoEngine.ActionReasons | src/utils/pareto-engine.ts:106-109 | a gap reason iff the dimension has a positive gap, a flag reason iff boosted, a low-effort reason iff effort is S |
| ParetoEngine.ScoreAction | src/utils/pareto-engine.ts:98-116 | the score is impact × priority ÷ effort, times 1.5 when it addresses a serious fired flag, rounded to one decimal; the reasons are as above; the one impacted dimension is the label |
| ParetoEngine.BoostIsHalfAgain | src/utils/pareto-engine.ts:103-104 | addressing a serious fired flag multiplies the raw score by 1.5 |
| ParetoEngine.LessEffortScoresHigher | src/utils/pareto-engine.ts:99-100 | with equal impact and priority, lower effort never scores lower |
| ParetoEngine.ScoreEntry | src/utils/pareto-engine.ts:98-117 | the actions of one key, each scored against that key's gap and label |
| ParetoEngine.ScoredLibrary | src/utils/pareto-engine.ts:93-118 | one scored action per library action |
| ParetoEngine.ScoredLibraryMembers | src/utils/pareto-engine.ts:93-118 | a scored action is listed iff it is some library action scored against its key |
| ParetoEngine.ComputeParetoActions | src/utils/pareto-engine.ts:79-123 | a permutation of the scored library, by Pareto score from highest to lowest, one entry per library action |
| ParetoEngine.ParetoActionsComplete | src/utils/pareto-engine.ts:93-118 | every library action appears, scored against its key |
| ParetoEngine.ParetoActionsSound | src/utils/pareto-engine.ts:93-118 | every entry is a library action scored against its key |
| ParetoEngine.ParetoActionsStable | src/utils/pareto-engine.ts:121 | actions of equal score keep library order |
| ParetoEngine.ParetoActionsSingleDimension | src/utils/pareto-engine.ts:115 | every scored action names exactly one impacted dimension |
| ParetoEngine.DistinctIdsCard | src/utils/pareto-engine.ts:141-147 | picks with distinct ids are as many as their ids |
| ParetoEngine.Pick | src/utils/pareto-engine.ts:143-148 | records the id; appends the action iff its id was not yet used |
| ParetoEngine.PickValid | src/utils/pareto-engine.ts:143-148 | picking keeps the picks distinct, drawn from the candidates and recorded as used |
| ParetoEngine.Fill | src/utils/pareto-engine.ts:157-160 | only appends, never beyond five; stopping short of five means every candidate id is used |
| ParetoEngine.FillValid | src/utils/pareto-engine.ts:157-160 | the fill keeps the selection invariant |
| ParetoEngine.FillTakesLeading | src/utils/pareto-engine.ts:157-160 | from a selection sharing no id with distinct candidates, the fill appends the leading candidates until five are selected |
| ParetoEngine.Replace | src/utils/pareto-engine.ts:170-171 | drops the last pick when five are selected, then appends the candidate; earlier picks stay |
| ParetoEngine.PrefixValid | src/utils/pareto-engine.ts:170 | dropping picks from the end keeps the invariant |
| ParetoEngine.ReplaceValid | src/utils/pareto-engine.ts:170-171 | replacing with an unused candidate keeps the invariant |
| ParetoEngine.FirstUnused | src/utils/pareto-engine.ts:168 | the first candidate of the block whose id is unused, and none iff there is no such candidate |
| ParetoEngine.EnsureBlock | src/utils/pareto-engine.ts:167-173 | without a candidate nothing changes; otherwise the first unused block candidate ends the selection, which grows below five and keeps all but the last pick |
| ParetoEngine.EnsureBlockValid | src/utils/pareto-engine.ts:167-173 | a block repair keeps the invariant |
| ParetoEngine.BlockDimsAreDefault | src/utils/pareto-engine.ts:131-134 | the three block dimension sets are those of the default blocks |
| ParetoEngine.BlocksDisjoint | src/utils/report-helpers.ts:40-44 | no action belongs to two default blocks |
| ParetoEngine.ForcedPick | src/utils/pareto-engine.ts:151-154 | at most the one forced pick |
| ParetoEngine.ForcedPickValid | src/utils/pareto-engine.ts:151-154 | the forced pick satisfies the invariant, with the used ids exactly the picked ones |
| ParetoEngine.AfterFill | src/utils/pareto-engine.ts:151-160 | at most five picks after the fill |
| ParetoEngine.AfterFillValid | src/utils/pareto-engine.ts:151-160 | after the fill the used ids are exactly the picked ones |
| ParetoEngine.AfterGrowth | src/utils/pareto-engine.ts:163-175 | the growth repair keeps at most five picks and the first pick |
| ParetoEngine.AfterGrowthValid | src/utils/pareto-engine.ts:175 | the growth repair keeps the invariant |
| ParetoEngine.AfterGrowthAndFoundation | src/utils/pareto-engine.ts:164-176 | the foundation repair, decided on the filled selection, keeps at most five picks and the first pick |
| ParetoEngine.AfterGrowthAndFoundationValid | src/utils/pareto-engine.ts:176 | the foundation repair keeps the invariant |
| ParetoEngine.FinalSelection | src/utils/pareto-engine.ts:165-177 | the execution repair keeps at most five picks and the first pick |
| ParetoEngine.FinalSelectionValid | src/utils/pareto-engine.ts:177 | the execution repair keeps the invariant |
| ParetoEngine.SelectTop5 | src/utils/pareto-engine.ts:126-180 | at most five actions with pairwise distinct ids, all among the candidates |
| ParetoEngine.SelectTop5IsFinal | src/utils/pareto-engine.ts:179 | the closing slice removes nothing |
| ParetoEngine.SelectTop5Size | src/utils/pareto-engine.ts:143-179 | the Top 5 holds min(5, number of distinct candidate ids) actions |
| ParetoEngine.SelectTop5ForcedFirst | src/utils/pareto-engine.ts:151-170 | when a candidate addresses a serious fired flag, the first such candidate heads the Top 5 |
| ParetoEngine.SelectTop5BestFirst | src/utils/pareto-engine.ts:157-160 | with no such candidate, the first candidate heads the Top 5 |
| ParetoEngine.SelectTop5CoversExecution | src/utils/pareto-engine.ts:165-177 | when the fill left the execution block uncovered and an unused execution candidate remains, the Top 5 covers it |
| ParetoEngine.ShortFillIsFinal | src/utils/pareto-engine.ts:157-177 | a fill of fewer than five uses every id, so no repair changes it |
| ParetoEngine.FullFillStaysFull | src/utils/pareto-engine.ts:170 | a full fill stays at five through the repairs |
| ParetoEngine.FullFillKeepsFour | src/utils/pareto-engine.ts:170 | the repairs only ever touch the fifth place of a full selection |
| ParetoEngine.SelectTop5KeepsLeading | src/utils/pareto-engine.ts:157-177 | without a forced pick, the four best candidates open the Top 5 in order |
| ParetoEngine.SwapsUndoGrowth | src/utils/pareto-engine.ts:167-176 | on a full selection without growth, the growth repair followed by a foundation repair leaves no growth action |
| ParetoEngine.GrowthPickEvicted | src/utils/pareto-engine.ts:163-177 | with execution covered, growth and foundation uncovered after the fill and candidates for both, the Top 5 ends without a growth action although one exists |
| ParetoEngine.DeepDivePrompts | src/utils/pareto-engine.ts:201-215 | the first two configured prompts of the dimension, none when it has none |
| ParetoEngine.GapAgendaItem | src/utils/pareto-engine.ts:214-223 | one or two prompts: the configured ones, else the generic raise-the-score question |
| ParetoEngine.TopRedFlag | src/utils/pareto-engine.ts:227-230 | the earliest flag of the highest severity rank, and none iff no flag fired |
| ParetoEngine.TopRedFlagMostSevere | src/utils/pareto-engine.ts:227-230 | no flag outranks the top flag and no earlier flag ties it |
| ParetoEngine.FlagAgendaItem | src/utils/pareto-engine.ts:232-239 | the flag's first two actions as prompts, a decision to resolve the flag, with the runway, burn and concentration checks |
| ParetoEngine.ThirdGapAgendaItem | src/utils/pareto-engine.ts:240-248 | the third gap with its configured prompts only, a decision to plan an initiative, and no context checks |
| ParetoEngine.LeadGapItems | src/utils/pareto-engine.ts:214-224 | item i is the gap item of gap i, prompts included: the first asks for a priority action, the second for a plan |
| ParetoEngine.AgendaFor | src/utils/pareto-engine.ts:214-249 | the gap items, then the top flag if any flag fired, else the third gap if there is one; at most three items |
| ParetoEngine.GenerateMeetingAgenda | src/utils/pareto-engine.ts:192-252 | at most three items, ending with the most severe flag whenever one fired |
| ParetoEngine.AgendaLeadsWithTopGap | src/utils/pareto-engine.ts:214-219 | the agenda opens with a gap no other gap outranks |
| ParetoEngine.AgendaThirdGap | src/utils/pareto-engine.ts:240-249 | with no fired flag and more than two gaps, the third item develops the third gap |
| ParetoEngine.QuadrantOf | src/utils/pareto-engine.ts:299-301 | high impact iff impact ≥ 50, high risk iff risk ≥ 50 |
| ParetoEngine.SeverityPoints | src/utils/pareto-engine.ts:283-284 | every severity weighs at least 0.5 |
| ParetoEngine.TriggerHits | src/utils/pareto-engine.ts:285-287 | counts the triggers on the dimension: positive iff one names it |
| ParetoEngine.RuleHits | src/utils/pareto-engine.ts:282-287 | positive iff the flag's configured rule has a trigger on the dimension |
| ParetoEngine.AnyTouchesExists | src/utils/pareto-engine.ts:281-288 | some fired flag's rule names the dimension, stated as an existence |
| ParetoEngine.RedFlagPoints | src/utils/pareto-engine.ts:280-288 | non-negative, at least 0.5 when positive, and positive iff some fired flag's rule names the dimension |
| ParetoEngine.MaxPriority | src/utils/pareto-engine.ts:274 | at least 1 and every gap's priority, and equal to one of them unless it is 1 |
| ParetoEngine.LowScore | src/utils/pareto-engine.ts:293-294 | max(0, 60 − scoreTo100) of the first score with the id, 0 when no score has the id |
| ParetoEngine.ImpactOf | src/utils/pareto-engine.ts:292 | for priorities in [0, max] the nearest integer to 100·p/max; 100 from the top priority up; at most 100 |
| ParetoEngine.ImpactMonotone | src/utils/pareto-engine.ts:292 | a higher priority never has a lower impact |
| ParetoEngine.RiskOf | src/utils/pareto-engine.ts:294-297 | the sum of the low-score term, 15 for structural dimensions and ten times the flag points, capped at 100; at least 15 for structural dimensions |
| ParetoEngine.GapPoint | src/utils/pareto-engine.ts:291-304 | impact and risk are ImpactOf and RiskOf of the gap's priority, low score, structural flag and flag points; risk ≥ 15 on FS, GR and PT, ≥ 5 when a fired flag names the dimension; quadrant from both |
| ParetoEngine.FlagPoint | src/utils/pareto-engine.ts:307-320 | impact and risk are the severity's table values, 50 for an unknown severity; both in [0, 100], quadrant from both |
| ParetoEngine.FlagQuadrants | src/utils/pareto-engine.ts:308-318 | medium and low flags are low-risk low-impact; every other flag is high-risk high-impact |
| ParetoEngine.FlagPointsOrdered | src/utils/pareto-engine.ts:308-309 | impact and risk strictly decrease from critical to low |
| ParetoEngine.MatrixFor | src/utils/pareto-engine.ts:264-323 | one point per gap, then one per fired flag, all within bounds and in their quadrant |
| ParetoEngine.Compute2x2Matrix | src/utils/pareto-engine.ts:264-323 | gap points first, then flag points, with ids and kinds matching, bounds and quadrants |
| ParetoEngine.MatrixImpactOrder | src/utils/pareto-engine.ts:292 | gap points are ordered by impact, highest first |
| ParetoEngine.MatrixTopImpact | src/utils/pareto-engine.ts:274-292 | the top gap has impact 100 when its priority is at least 1 |
| ParetoEngine.GapOfPriorityNonNegative | src/utils/report-helpers.ts:124-135 | with non-negative weights a gap's priority is non-negative |
| ParetoEngine.GapPriorityNonNegative | src/utils/report-helpers.ts:124-135 | with non-negative stage weights every computed gap has non-negative priority |
| ParetoEngine.MatrixImpactNonNegative | src/utils/pareto-engine.ts:292 | with non-negative stage weights every gap point has non-negative impact |

## Left out

- User interface, persistence, routing and authentication: the pages, components, hooks and database typings. They only produce the engine's inputs or show its outputs.
- Floating point: numbers are exact reals. IEEE-754 rounding at `.5` boundaries, `NaN` and infinities are not modelled.
- Object-valued stage targets: only numeric targets are modelled. The object form makes the source compute `NaN`.
- The array form of `deep_dive_prompts` and a non-object `action_library`: both are taken in the normalised map form.
- The in-place sort of `result.red_flags` in `generateMeetingAgenda`: it reorders the caller's array as a side effect, which changes the flag order a later `compute2x2Matrix` call on the same result sees. The model returns the agenda only, and the matrix uses the flags in the order it is given.
- Wording: the Portuguese topic, decision, reason, rationale, title and narrative texts, and how numbers are printed into them. Agenda items, reasons, roadmap rationales and narratives are modelled by the data they are built from. The roadmap's "already named" test looks for a gap's label inside a flag item's rationale, and is kept as a substring test.
- Action text fields (title, description, first step, definition of done, tags, time to impact, KPI hint): they do not influence any result.
- JavaScript prototype keys such as `constructor` in lookups on plain objects.
- Parameters the source never reads: `weights` in `compute2x2Matrix`, `config` in `selectTop5`, `answers` in `evaluateRedFlags`. The last one is proved irrelevant.
- ParetoEngine.DefaultLibraryKeys: lists the keys of the built-in library in order, but does not state that the twenty action ids are pairwise distinct.
- ReportHelpers.ComputeBlocks: requires that no stage weight is negative. With negative weights the source can divide by zero.
- ReportHelpers.ComputeBlock: carries the same requirement that no stage weight is negative, for the same reason.
- ReportHelpers.BlockScore100: carries the same requirement that no stage weight is negative, for the same reason.
- ParetoEngine.SelectTop5KeepsLeading: assumes distinct candidate ids and no candidate addressing a serious flag. Other inputs are covered by SelectTop5ForcedFirst and SelectTop5Size.
