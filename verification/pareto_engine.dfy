/**
  The Pareto action engine: scores the actions of the action library by the
  priority of their dimension's gap, their effort and whether they address a
  serious red flag; selects a Top 5 with a forced red-flag pick and a
  best-effort block coverage; lays out the meeting agenda and places gaps
  and red flags on a risk/impact matrix.
 */
module ParetoEngine {
  import opened Basics
  import opened Types
  import opened Sorting
  import ReportHelpers

  // ---------------------------------------------------------------------
  // Action library
  // ---------------------------------------------------------------------

  /** The built-in actions of each dimension: id, effort, impact weight, red flags addressed. */
  const MN_ACTIONS: seq<ParetoAction> := [ParetoAction("MN-01", "S", 5.0, [], "MN"),
                                         ParetoAction("MN-02", "M", 4.0, [], "MN"),
                                         ParetoAction("MN-03", "S", 3.0, [], "MN")]
  const GT_ACTIONS: seq<ParetoAction> := [ParetoAction("GT-01", "S", 5.0, [], "GT"),
                                         ParetoAction("GT-02", "L", 5.0, [], "GT"),
                                         ParetoAction("GT-03", "M", 3.0, [], "GT")]
  const EE_ACTIONS: seq<ParetoAction> := [ParetoAction("EE-01", "M", 4.0, [], "EE"),
                                         ParetoAction("EE-02", "S", 3.0, [], "EE")]
  const FS_ACTIONS: seq<ParetoAction> := [ParetoAction("FS-01", "S", 5.0, ["RF_RUNWAY"], "FS"),
                                         ParetoAction("FS-02", "M", 4.0, ["RF_RUNWAY", "RF_BURN"], "FS")]
  const PM_ACTIONS: seq<ParetoAction> := [ParetoAction("PM-01", "S", 5.0, [], "PM"),
                                         ParetoAction("PM-02", "M", 3.0, [], "PM")]
  const GR_ACTIONS: seq<ParetoAction> := [ParetoAction("GR-01", "M", 4.0, [], "GR"),
                                         ParetoAction("GR-02", "S", 3.0, [], "GR")]
  const PT_ACTIONS: seq<ParetoAction> := [ParetoAction("PT-01", "M", 4.0, [], "PT"),
                                         ParetoAction("PT-02", "S", 4.0, [], "PT")]
  const PL_ACTIONS: seq<ParetoAction> := [ParetoAction("PL-01", "S", 4.0, [], "PL"),
                                         ParetoAction("PL-02", "S", 3.0, [], "PL")]
  const IC_ACTIONS: seq<ParetoAction> := [ParetoAction("IC-01", "S", 3.0, [], "IC"),
                                         ParetoAction("IC-02", "M", 3.0, [], "IC")]

  /** The built-in library, keyed by dimension. */
  const DEFAULT_ACTION_LIBRARY: Record<seq<ParetoAction>> := [
    Entry("MN", MN_ACTIONS), Entry("GT", GT_ACTIONS), Entry("EE", EE_ACTIONS),
    Entry("FS", FS_ACTIONS), Entry("PM", PM_ACTIONS), Entry("GR", GR_ACTIONS),
    Entry("PT", PT_ACTIONS), Entry("PL", PL_ACTIONS), Entry("IC", IC_ACTIONS)
  ]

  /** getActionLibrary: the configured library when it has at least one key, the built-in one otherwise. */
  function GetActionLibrary(config: ConfigJSON): (lib: Record<seq<ParetoAction>>)
    ensures |lib| > 0
    ensures |config.action_library| > 0 ==> lib == config.action_library
    ensures |config.action_library| == 0 ==> lib == DEFAULT_ACTION_LIBRARY
  {
    if |config.action_library| > 0 then config.action_library else DEFAULT_ACTION_LIBRARY
  }

  /** The number of actions a library holds, over all its keys. */
  function ActionCount(lib: Record<seq<ParetoAction>>): nat
  {
    if |lib| == 0 then 0 else |lib[0].value| + ActionCount(lib[1..])
  }

  function EntryKey(e: Entry<seq<ParetoAction>>): string { e.key }

  /** The built-in library's keys are the dimensions of the default blocks, block by block. */
  lemma DefaultLibraryKeys()
    ensures Map(DEFAULT_ACTION_LIBRARY, EntryKey) == GROWTH_DIMS + FOUNDATION_DIMS + EXECUTION_DIMS
  {
    var keys := GROWTH_DIMS + FOUNDATION_DIMS + EXECUTION_DIMS;
    var m := Map(DEFAULT_ACTION_LIBRARY, EntryKey);
    assert forall i :: 0 <= i < 9 ==> m[i] == keys[i];
  }

  /** Every action of the built-in library is filed under its own dimension. */
  lemma DefaultLibraryDimensions()
    ensures forall i, j :: 0 <= i < |DEFAULT_ACTION_LIBRARY| && 0 <= j < |DEFAULT_ACTION_LIBRARY[i].value| ==>
              DEFAULT_ACTION_LIBRARY[i].value[j].dimension_id == DEFAULT_ACTION_LIBRARY[i].key
  {
  }

  /** The built-in library holds twenty actions. */
  lemma DefaultLibraryCount()
    ensures ActionCount(DEFAULT_ACTION_LIBRARY) == 20
  {
    var lib := DEFAULT_ACTION_LIBRARY;
    assert ActionCount(lib[8..]) == 2;
    assert ActionCount(lib[7..]) == 4;
    assert ActionCount(lib[6..]) == 6;
    assert ActionCount(lib[5..]) == 8;
    assert ActionCount(lib[4..]) == 10;
    assert ActionCount(lib[3..]) == 12;
    assert ActionCount(lib[2..]) == 14;
    assert ActionCount(lib[1..]) == 17;
  }

  // ---------------------------------------------------------------------
  // Scoring one action
  // ---------------------------------------------------------------------

  /** `EFFORT_FACTOR[effort] || 2`. */
  function EffortFactor(effort: string): (e: real)
    ensures e == 1.0 <==> effort == "S"
    ensures e == 3.0 <==> effort == "L"
    ensures e == 2.0 <==> effort != "S" && effort != "L"
  {
    if effort == "S" then 1.0 else if effort == "L" then 3.0 else 2.0
  }

  /** The codes of the fired red flags of severity high or critical, in order. */
  function HighFlagCodes(flags: seq<EvaluatedRedFlag>): (codes: seq<string>)
    ensures forall c :: c in codes <==> exists i :: 0 <= i < |flags| && flags[i].code == c && IsHighSeverity(flags[i].severity)
  {
    var high := Filter(flags, (rf: EvaluatedRedFlag) => IsHighSeverity(rf.severity));
    var codes := Map(high, (rf: EvaluatedRedFlag) => rf.code);
    assert forall c :: c in codes ==> exists i :: 0 <= i < |flags| && flags[i].code == c && IsHighSeverity(flags[i].severity) by {
      forall c | c in codes
        ensures exists i :: 0 <= i < |flags| && flags[i].code == c && IsHighSeverity(flags[i].severity)
      {
        var k :| 0 <= k < |codes| && codes[k] == c;
        assert high[k] in flags;
      }
    }
    assert forall i :: 0 <= i < |flags| && IsHighSeverity(flags[i].severity) ==> flags[i].code in codes by {
      forall i | 0 <= i < |flags| && IsHighSeverity(flags[i].severity) ensures flags[i].code in codes {
        assert flags[i] in high;
        var k :| 0 <= k < |high| && high[k] == flags[i];
        assert codes[k] == flags[i].code;
      }
    }
    codes
  }

  /** `action.addresses_red_flags?.some((code) => high.includes(code))`. */
  predicate AddressesHigh(a: ParetoAction, high: seq<string>)
  {
    exists k :: 0 <= k < |a.addresses_red_flags| && a.addresses_red_flags[k] in high
  }

  /** The position of the last gap of dimension `id`. */
  function LastGapIndex(gaps: seq<ReportHelpers.PrioritizedGap>, id: string): (o: Option<nat>)
    ensures o.None? <==> forall i :: 0 <= i < |gaps| ==> gaps[i].dimension_id != id
    ensures o.Some? ==> o.value < |gaps| && gaps[o.value].dimension_id == id
    ensures o.Some? ==> forall j :: o.value < j < |gaps| ==> gaps[j].dimension_id != id
  {
    if |gaps| == 0 then None
    else if gaps[|gaps| - 1].dimension_id == id then Some(|gaps| - 1)
    else
      var o := LastGapIndex(gaps[..|gaps| - 1], id);
      assert forall i :: 0 <= i < |gaps| - 1 ==> gaps[..|gaps| - 1][i] == gaps[i];
      o
  }

  /**
    `new Map(gaps.map((g) => [g.dimension_id, g])).get(id)`: a later gap with
    the same id overwrites an earlier one, so the last one is found.
   */
  function LastGap(gaps: seq<ReportHelpers.PrioritizedGap>, id: string): (o: Option<ReportHelpers.PrioritizedGap>)
    ensures o.None? <==> forall i :: 0 <= i < |gaps| ==> gaps[i].dimension_id != id
    ensures o.Some? ==> exists i :: 0 <= i < |gaps| && gaps[i] == o.value && o.value.dimension_id == id
                          && forall j :: i < j < |gaps| ==> gaps[j].dimension_id != id
  {
    match LastGapIndex(gaps, id)
    case Some(i) => Some(gaps[i])
    case None => None
  }

  /** `gap?.priority_score || 0`, then `|| 1`: the gap's priority, or 1 without a gap or with priority 0. */
  function PriorityFactor(gap: Option<ReportHelpers.PrioritizedGap>): (p: real)
    ensures p != 0.0
    ensures gap.Some? && gap.value.priority_score != 0.0 ==> p == gap.value.priority_score
    ensures gap.None? || gap.value.priority_score == 0.0 ==> p == 1.0
  {
    var dimPriority := if gap.Some? then gap.value.priority_score else 0.0;
    if dimPriority != 0.0 then dimPriority else 1.0
  }

  /** Position `i` holds the first dimension score with the id `dimId`. */
  predicate FirstWithId(scores: seq<DimensionScore>, dimId: string, i: int)
  {
    0 <= i < |scores| && scores[i].dimension_id == dimId
    && forall j :: 0 <= j < i ==> scores[j].dimension_id != dimId
  }

  /** The label shown for a library key: the dimension's non-empty label, else the key itself. */
  function DimLabel(scores: seq<DimensionScore>, dimId: string): (shown: string)
    ensures (exists i :: FirstWithId(scores, dimId, i) && scores[i].name != "" && shown == scores[i].name)
            || ((forall i :: FirstWithId(scores, dimId, i) ==> scores[i].name == "") && shown == dimId)
  {
    match Find(scores, (d: DimensionScore) => d.dimension_id == dimId)
    case Some(d) => if d.name != "" then d.name else dimId
    case None => dimId
  }

  /** One part of the reason an action is suggested; none at all reads "Impacto geral". */
  datatype Reason =
    | GapReason(points: int, dimension: string)
    | AddressesCriticalFlag
    | LowEffort

  /** A library action with its Pareto score, reasons and the dimension it affects. */
  datatype ScoredAction = ScoredAction(
    action: ParetoAction,
    pareto_score: real,
    reasons: seq<Reason>,
    impacted_dimensions: seq<string>)

  function ParetoScore(a: ScoredAction): real { a.pareto_score }

  /** Impact weight times priority over effort, boosted by half for an action addressing a serious red flag. */
  function RawScore(a: ParetoAction, priority: real, boosted: bool): real
  {
    a.impact_weight * priority / EffortFactor(a.effort) * (if boosted then 1.5 else 1.0)
  }

  /** The reasons listed for an action: its dimension's gap, a serious red flag addressed, low effort. */
  function ActionReasons(a: ParetoAction, gap: Option<ReportHelpers.PrioritizedGap>, dimLabel: string,
                         boosted: bool): (rs: seq<Reason>)
    ensures (exists k :: 0 <= k < |rs| && rs[k].GapReason?) <==> gap.Some? && gap.value.gap_potential > 0
    ensures AddressesCriticalFlag in rs <==> boosted
    ensures LowEffort in rs <==> a.effort == "S"
    ensures |rs| <= 3
  {
    var gapReason: seq<Reason> := if gap.Some? && gap.value.gap_potential > 0
                                  then [GapReason(gap.value.gap_potential, dimLabel)] else [];
    var flagReason: seq<Reason> := if boosted then [AddressesCriticalFlag] else [];
    var effortReason: seq<Reason> := if a.effort == "S" then [LowEffort] else [];
    var rs := gapReason + flagReason + effortReason;
    assert forall k :: 0 <= k < |rs| && rs[k].GapReason? ==> k < |gapReason|;
    assert |gapReason| > 0 ==> rs[0] == gapReason[0];
    rs
  }

  /** The body of the inner loop of computeParetoActions, for one action. */
  function ScoreAction(a: ParetoAction, gap: Option<ReportHelpers.PrioritizedGap>, dimLabel: string,
                       high: seq<string>): (r: ScoredAction)
    ensures r.action == a && r.impacted_dimensions == [dimLabel]
    ensures var raw := RawScore(a, PriorityFactor(gap), AddressesHigh(a, high));
            raw - 0.05 < r.pareto_score <= raw + 0.05
    ensures r.pareto_score == Round1(RawScore(a, PriorityFactor(gap), AddressesHigh(a, high)))
    ensures (exists k :: 0 <= k < |r.reasons| && r.reasons[k].GapReason?)
            <==> gap.Some? && gap.value.gap_potential > 0
    ensures AddressesCriticalFlag in r.reasons <==> AddressesHigh(a, high)
    ensures LowEffort in r.reasons <==> a.effort == "S"
    ensures |r.reasons| <= 3
  {
    var boosted := AddressesHigh(a, high);
    ScoredAction(a, Round1(RawScore(a, PriorityFactor(gap), boosted)),
                 ActionReasons(a, gap, dimLabel, boosted), [dimLabel])
  }

  /** An action addressing a serious red flag scores one and a half times what it would otherwise. */
  lemma BoostIsHalfAgain(a: ParetoAction, priority: real)
    ensures RawScore(a, priority, true) == 1.5 * RawScore(a, priority, false)
  {
  }

  /** With a positive impact weight and priority, less effort never lowers the raw score. */
  lemma LessEffortScoresHigher(a: ParetoAction, b: ParetoAction, priority: real, boosted: bool)
    requires a.impact_weight == b.impact_weight > 0.0 && priority > 0.0
    requires EffortFactor(a.effort) <= EffortFactor(b.effort)
    ensures RawScore(a, priority, boosted) >= RawScore(b, priority, boosted)
  {
    var x := a.impact_weight * priority;
    assert x > 0.0;
    QuotientAntitone(x, EffortFactor(a.effort), EffortFactor(b.effort));
  }

  lemma QuotientAntitone(x: real, d: real, e: real)
    ensures x > 0.0 && 0.0 < d <= e ==> x / d >= x / e
  {
    if x > 0.0 && 0.0 < d <= e {
      assert x / d * d == x;
      assert x / e * e == x;
      assert x / e * d <= x / e * e;
    }
  }

  // ---------------------------------------------------------------------
  // computeParetoActions
  // ---------------------------------------------------------------------

  /** The scored actions of one library key, in library order. */
  function ScoreEntry(entry: Entry<seq<ParetoAction>>, gaps: seq<ReportHelpers.PrioritizedGap>,
                      scores: seq<DimensionScore>, high: seq<string>): (r: seq<ScoredAction>)
    ensures |r| == |entry.value|
    ensures forall j :: 0 <= j < |r| ==>
              r[j] == ScoreAction(entry.value[j], LastGap(gaps, entry.key), DimLabel(scores, entry.key), high)
  {
    Map(entry.value, (a: ParetoAction) => ScoreAction(a, LastGap(gaps, entry.key), DimLabel(scores, entry.key), high))
  }

  /** Every action of every library key scored, keys in library order: the list before sorting. */
  function ScoredLibrary(lib: Record<seq<ParetoAction>>, gaps: seq<ReportHelpers.PrioritizedGap>,
                         scores: seq<DimensionScore>, high: seq<string>): (r: seq<ScoredAction>)
    ensures |r| == ActionCount(lib)
  {
    if |lib| == 0 then [] else ScoreEntry(lib[0], gaps, scores, high) + ScoredLibrary(lib[1..], gaps, scores, high)
  }

  /** Every scored action comes from some action of some library key, and every such action is scored. */
  lemma {:induction false} ScoredLibraryMembers(lib: Record<seq<ParetoAction>>, gaps: seq<ReportHelpers.PrioritizedGap>,
                                               scores: seq<DimensionScore>, high: seq<string>, s: ScoredAction)
    ensures s in ScoredLibrary(lib, gaps, scores, high)
            <==> exists i, j :: 0 <= i < |lib| && 0 <= j < |lib[i].value|
                   && s == ScoreAction(lib[i].value[j], LastGap(gaps, lib[i].key), DimLabel(scores, lib[i].key), high)
  {
    if |lib| > 0 {
      ScoredLibraryMembers(lib[1..], gaps, scores, high, s);
      var head := ScoreEntry(lib[0], gaps, scores, high);
      var rest := ScoredLibrary(lib[1..], gaps, scores, high);
      assert s in head + rest <==> s in head || s in rest;
      if s in rest {
        var i, j :| 0 <= i < |lib[1..]| && 0 <= j < |lib[1..][i].value|
          && s == ScoreAction(lib[1..][i].value[j], LastGap(gaps, lib[1..][i].key), DimLabel(scores, lib[1..][i].key), high);
        assert lib[1..][i] == lib[i + 1];
      }
      if s in head {
        var j :| 0 <= j < |head| && head[j] == s;
        assert 0 <= j < |lib[0].value|;
      }
      if exists i, j :: 0 <= i < |lib| && 0 <= j < |lib[i].value|
           && s == ScoreAction(lib[i].value[j], LastGap(gaps, lib[i].key), DimLabel(scores, lib[i].key), high) {
        var i, j :| 0 <= i < |lib| && 0 <= j < |lib[i].value|
          && s == ScoreAction(lib[i].value[j], LastGap(gaps, lib[i].key), DimLabel(scores, lib[i].key), high);
        if i == 0 {
          assert head[j] == s;
        } else {
          assert lib[1..][i - 1] == lib[i];
        }
      }
    }
  }

  /**
    computeParetoActions: one scored action per library action, highest
    Pareto score first, library order kept among equal scores.
   */
  function ComputeParetoActions(config: ConfigJSON, result: AssessmentResult, stage: string): (r: seq<ScoredAction>)
    ensures NonIncreasing(r, ParetoScore)
    ensures multiset(r) == multiset(ScoredLibrary(GetActionLibrary(config),
                                                  ReportHelpers.ComputeGaps(result.dimension_scores, config, stage),
                                                  result.dimension_scores, HighFlagCodes(result.red_flags)))
    ensures |r| == ActionCount(GetActionLibrary(config))
  {
    var gaps := ReportHelpers.ComputeGaps(result.dimension_scores, config, stage);
    SortDesc(ScoredLibrary(GetActionLibrary(config), gaps, result.dimension_scores, HighFlagCodes(result.red_flags)),
             ParetoScore)
  }

  /** Each library action appears, scored against its key's gap, label and the serious red flags. */
  lemma ParetoActionsComplete(config: ConfigJSON, result: AssessmentResult, stage: string, i: nat, j: nat)
    requires i < |GetActionLibrary(config)| && j < |GetActionLibrary(config)[i].value|
    ensures var lib := GetActionLibrary(config);
            var gaps := ReportHelpers.ComputeGaps(result.dimension_scores, config, stage);
            ScoreAction(lib[i].value[j], LastGap(gaps, lib[i].key), DimLabel(result.dimension_scores, lib[i].key),
                        HighFlagCodes(result.red_flags))
              in ComputeParetoActions(config, result, stage)
  {
    var lib := GetActionLibrary(config);
    var gaps := ReportHelpers.ComputeGaps(result.dimension_scores, config, stage);
    var high := HighFlagCodes(result.red_flags);
    var s := ScoreAction(lib[i].value[j], LastGap(gaps, lib[i].key), DimLabel(result.dimension_scores, lib[i].key), high);
    ScoredLibraryMembers(lib, gaps, result.dimension_scores, high, s);
    assert s in multiset(ScoredLibrary(lib, gaps, result.dimension_scores, high));
  }

  /** Each scored action is some library action scored against its key. */
  lemma ParetoActionsSound(config: ConfigJSON, result: AssessmentResult, stage: string, k: nat)
    requires k < |ComputeParetoActions(config, result, stage)|
    ensures var lib := GetActionLibrary(config);
            var gaps := ReportHelpers.ComputeGaps(result.dimension_scores, config, stage);
            exists i, j :: 0 <= i < |lib| && 0 <= j < |lib[i].value|
              && ComputeParetoActions(config, result, stage)[k]
                 == ScoreAction(lib[i].value[j], LastGap(gaps, lib[i].key), DimLabel(result.dimension_scores, lib[i].key),
                                HighFlagCodes(result.red_flags))
  {
    var lib := GetActionLibrary(config);
    var gaps := ReportHelpers.ComputeGaps(result.dimension_scores, config, stage);
    var high := HighFlagCodes(result.red_flags);
    var s := ComputeParetoActions(config, result, stage)[k];
    assert s in multiset(ScoredLibrary(lib, gaps, result.dimension_scores, high));
    ScoredLibraryMembers(lib, gaps, result.dimension_scores, high, s);
  }

  /** Stability: the actions sharing a Pareto score keep their library order. */
  lemma ParetoActionsStable(config: ConfigJSON, result: AssessmentResult, stage: string, k: real)
    ensures WithKey(ComputeParetoActions(config, result, stage), ParetoScore, k)
         == WithKey(ScoredLibrary(GetActionLibrary(config),
                                  ReportHelpers.ComputeGaps(result.dimension_scores, config, stage),
                                  result.dimension_scores, HighFlagCodes(result.red_flags)), ParetoScore, k)
  {
    SortDescStable(ScoredLibrary(GetActionLibrary(config),
                                 ReportHelpers.ComputeGaps(result.dimension_scores, config, stage),
                                 result.dimension_scores, HighFlagCodes(result.red_flags)), ParetoScore, k);
  }

  /** Every scored action names exactly one impacted dimension. */
  lemma ParetoActionsSingleDimension(config: ConfigJSON, result: AssessmentResult, stage: string, k: nat)
    requires k < |ComputeParetoActions(config, result, stage)|
    ensures |ComputeParetoActions(config, result, stage)[k].impacted_dimensions| == 1
  {
    ParetoActionsSound(config, result, stage, k);
  }

  // ---------------------------------------------------------------------
  // selectTop5
  // ---------------------------------------------------------------------

  /** The ids of the actions of `s`. */
  function Ids(s: seq<ScoredAction>): set<string>
  {
    set i | 0 <= i < |s| :: s[i].action.id
  }

  predicate DistinctIds(s: seq<ScoredAction>)
  {
    forall i, j :: 0 <= i < j < |s| ==> s[i].action.id != s[j].action.id
  }

  /** Distinct ids: as many ids as actions. */
  lemma {:induction false} DistinctIdsCard(s: seq<ScoredAction>)
    requires DistinctIds(s)
    ensures |Ids(s)| == |s|
  {
    if |s| > 0 {
      var t := s[1..];
      DistinctIdsCard(t);
      assert forall i :: 0 <= i < |t| ==> t[i] == s[i + 1];
      assert Ids(s) == {s[0].action.id} + Ids(t) by {
        forall x | x in Ids(s) ensures x in {s[0].action.id} + Ids(t) {
          var i :| 0 <= i < |s| && s[i].action.id == x;
          if i > 0 { assert t[i - 1] == s[i]; }
        }
      }
      assert s[0].action.id !in Ids(t);
    }
  }

  /** The state of selectTop5: the picks so far, in order, and every id ever picked. */
  datatype Selection = Selection(selected: seq<ScoredAction>, used: set<string>)

  /**
    What every state of selectTop5 keeps: the picks have distinct ids, come
    from the candidates and are recorded as used; only candidate ids are used.
   */
  ghost predicate Valid(st: Selection, all: seq<ScoredAction>)
  {
    DistinctIds(st.selected)
    && (forall i :: 0 <= i < |st.selected| ==> st.selected[i] in all)
    && Ids(st.selected) <= st.used
    && st.used <= Ids(all)
  }

  /** `pick(action)`: appends the action and records its id, unless the id was already picked. */
  function Pick(st: Selection, a: ScoredAction): (r: Selection)
    ensures r.used == st.used + {a.action.id}
    ensures a.action.id in st.used ==> r.selected == st.selected
    ensures a.action.id !in st.used ==> |r.selected| == |st.selected| + 1 && r.selected[|st.selected|] == a
    ensures st.selected <= r.selected
  {
    if a.action.id !in st.used then Selection(st.selected + [a], st.used + {a.action.id}) else st
  }

  lemma IdsAppend(s: seq<ScoredAction>, a: ScoredAction)
    ensures Ids(s + [a]) == Ids(s) + {a.action.id}
  {
    var t := s + [a];
    assert forall i :: 0 <= i < |s| ==> t[i] == s[i];
    assert t[|s|] == a;
  }

  lemma PickValid(st: Selection, a: ScoredAction, all: seq<ScoredAction>)
    requires Valid(st, all) && a in all
    ensures Valid(Pick(st, a), all)
    ensures st.used == Ids(st.selected) ==> Pick(st, a).used == Ids(Pick(st, a).selected)
  {
    if a.action.id !in st.used {
      var t := st.selected + [a];
      IdsAppend(st.selected, a);
      assert forall i :: 0 <= i < |st.selected| ==> t[i] == st.selected[i];
      assert a.action.id !in Ids(st.selected);
      assert DistinctIds(t);
    }
  }

  /** The fill loop: picks the candidates in order until five are selected. */
  function Fill(st: Selection, scored: seq<ScoredAction>): (r: Selection)
    ensures st.selected <= r.selected && st.used <= r.used
    ensures |st.selected| <= 5 ==> |r.selected| <= 5
    ensures |st.selected| >= 5 ==> r == st
    ensures |r.selected| < 5 ==> forall i :: 0 <= i < |scored| ==> scored[i].action.id in r.used
    decreases |scored|
  {
    if |scored| == 0 || |st.selected| >= 5 then st
    else
      var r := Fill(Pick(st, scored[0]), scored[1..]);
      assert forall i :: 1 <= i < |scored| ==> scored[i] == scored[1..][i - 1];
      r
  }

  lemma {:induction false} FillValid(st: Selection, scored: seq<ScoredAction>, all: seq<ScoredAction>)
    requires Valid(st, all) && forall i :: 0 <= i < |scored| ==> scored[i] in all
    ensures Valid(Fill(st, scored), all)
    ensures st.used == Ids(st.selected) ==> Fill(st, scored).used == Ids(Fill(st, scored).selected)
    decreases |scored|
  {
    if |scored| > 0 && |st.selected| < 5 {
      PickValid(st, scored[0], all);
      assert forall i :: 0 <= i < |scored[1..]| ==> scored[1..][i] == scored[i + 1];
      FillValid(Pick(st, scored[0]), scored[1..], all);
    }
  }

  predicate InBlock(a: ScoredAction, dims: seq<string>)
  {
    a.action.dimension_id in dims
  }

  /** `selected.some((a) => dims.has(a.dimension_id))`. */
  predicate HasBlock(s: seq<ScoredAction>, dims: seq<string>)
  {
    exists i :: 0 <= i < |s| && InBlock(s[i], dims)
  }

  /** A candidate of the block not picked before. */
  predicate Unused(a: ScoredAction, dims: seq<string>, used: set<string>)
  {
    InBlock(a, dims) && a.action.id !in used
  }

  /** Appends `c`, an action not picked before, dropping the last pick first when five are selected. */
  function Replace(st: Selection, c: ScoredAction): (r: Selection)
    requires c.action.id !in st.used
    ensures r.used == st.used + {c.action.id}
    ensures |r.selected| == (if |st.selected| >= 5 then |st.selected| else |st.selected| + 1)
    ensures r.selected[|r.selected| - 1] == c
    ensures r.selected[..|r.selected| - 1] == st.selected[..|r.selected| - 1]
  {
    var kept := if |st.selected| >= 5 then st.selected[..|st.selected| - 1] else st.selected;
    Pick(Selection(kept, st.used), c)
  }

  /** Dropping picks from the end keeps a state valid. */
  lemma PrefixValid(st: Selection, n: nat, all: seq<ScoredAction>)
    requires Valid(st, all) && n <= |st.selected|
    ensures Valid(Selection(st.selected[..n], st.used), all)
  {
    var kept := st.selected[..n];
    assert forall i :: 0 <= i < |kept| ==> kept[i] == st.selected[i];
    assert Ids(kept) <= Ids(st.selected);
  }

  lemma ReplaceValid(st: Selection, c: ScoredAction, all: seq<ScoredAction>)
    requires Valid(st, all) && c in all && c.action.id !in st.used
    ensures Valid(Replace(st, c), all)
  {
    var kept := if |st.selected| >= 5 then st.selected[..|st.selected| - 1] else st.selected;
    PrefixValid(st, |kept|, all);
    PickValid(Selection(kept, st.used), c, all);
  }

  /** The position of the first candidate of the block not picked before, if any. */
  function FirstUnused(scored: seq<ScoredAction>, dims: seq<string>, used: set<string>): (o: Option<nat>)
    ensures o.None? <==> forall i :: 0 <= i < |scored| ==> !Unused(scored[i], dims, used)
    ensures o.Some? ==> o.value < |scored| && Unused(scored[o.value], dims, used)
    ensures o.Some? ==> forall j :: 0 <= j < o.value ==> !Unused(scored[j], dims, used)
  {
    FindIndex(scored, (a: ScoredAction) => Unused(a, dims, used))
  }

  /**
    `ensureBlock(dims)`: the first unused candidate of the block, if any,
    replaces the last pick when five are selected and is appended otherwise.
   */
  function EnsureBlock(st: Selection, scored: seq<ScoredAction>, dims: seq<string>): (r: Selection)
    ensures FirstUnused(scored, dims, st.used).None? ==> r == st
    ensures FirstUnused(scored, dims, st.used).Some? ==>
              var c := scored[FirstUnused(scored, dims, st.used).value];
              |r.selected| == (if |st.selected| >= 5 then |st.selected| else |st.selected| + 1)
              && r.selected[|r.selected| - 1] == c && r.used == st.used + {c.action.id}
    ensures st.used <= r.used && |r.selected| >= |st.selected|
    ensures forall i :: 0 <= i < |st.selected| - 1 ==> r.selected[i] == st.selected[i]
    ensures |st.selected| < 5 ==> st.selected <= r.selected
  {
    match FirstUnused(scored, dims, st.used)
    case None => st
    case Some(k) =>
      var r := Replace(st, scored[k]);
      assert forall i :: 0 <= i < |r.selected| - 1 ==> r.selected[i] == r.selected[..|r.selected| - 1][i];
      r
  }

  lemma EnsureBlockValid(st: Selection, scored: seq<ScoredAction>, dims: seq<string>)
    requires Valid(st, scored)
    ensures Valid(EnsureBlock(st, scored, dims), scored)
  {
    match FirstUnused(scored, dims, st.used)
    case None =>
    case Some(k) =>
      ReplaceValid(st, scored[k], scored);
  }

  /** The dimensions of the three default blocks, in the order selectTop5 ensures them. */
  const GROWTH_DIMS: seq<string> := ["MN", "GT", "EE"]
  const FOUNDATION_DIMS: seq<string> := ["FS", "PM", "GR"]
  const EXECUTION_DIMS: seq<string> := ["PT", "PL", "IC"]

  lemma BlockDimsAreDefault()
    ensures GROWTH_DIMS == ReportHelpers.DEFAULT_BLOCKS[0].dimensions
    ensures FOUNDATION_DIMS == ReportHelpers.DEFAULT_BLOCKS[1].dimensions
    ensures EXECUTION_DIMS == ReportHelpers.DEFAULT_BLOCKS[2].dimensions
  {
  }

  /** No dimension belongs to two default blocks. */
  lemma BlocksDisjoint(a: ScoredAction)
    ensures !(InBlock(a, GROWTH_DIMS) && InBlock(a, FOUNDATION_DIMS))
    ensures !(InBlock(a, GROWTH_DIMS) && InBlock(a, EXECUTION_DIMS))
    ensures !(InBlock(a, FOUNDATION_DIMS) && InBlock(a, EXECUTION_DIMS))
  {
  }

  function AddressesHighAction(high: seq<string>): ScoredAction -> bool
  {
    (a: ScoredAction) => AddressesHigh(a.action, high)
  }

  /** The forced pick: with a serious red flag fired, the first candidate addressing one is picked first. */
  function ForcedPick(scored: seq<ScoredAction>, flags: seq<EvaluatedRedFlag>): (r: Selection)
    ensures |r.selected| <= 1
  {
    var high := HighFlagCodes(flags);
    if |high| > 0 then
      match Find(scored, AddressesHighAction(high))
      case Some(rf) => Pick(Selection([], {}), rf)
      case None => Selection([], {})
    else Selection([], {})
  }

  /** The selection after the fill loop. */
  function AfterFill(scored: seq<ScoredAction>, result: AssessmentResult): (r: Selection)
    ensures |r.selected| <= 5
  {
    Fill(ForcedPick(scored, result.red_flags), scored)
  }

  /** The selection after the growth block has been ensured, if the fill left it uncovered. */
  function AfterGrowth(scored: seq<ScoredAction>, result: AssessmentResult): (r: Selection)
    ensures |r.selected| <= 5
    ensures |AfterFill(scored, result).selected| > 0 ==>
              |r.selected| > 0 && r.selected[0] == AfterFill(scored, result).selected[0]
  {
    var st := AfterFill(scored, result);
    if !HasBlock(st.selected, GROWTH_DIMS) then EnsureBlock(st, scored, GROWTH_DIMS) else st
  }

  /** The selection after the foundation block has been ensured, if the fill left it uncovered. */
  function AfterGrowthAndFoundation(scored: seq<ScoredAction>, result: AssessmentResult): (r: Selection)
    ensures |r.selected| <= 5
    ensures |AfterFill(scored, result).selected| > 0 ==>
              |r.selected| > 0 && r.selected[0] == AfterFill(scored, result).selected[0]
  {
    var st := AfterGrowth(scored, result);
    if !HasBlock(AfterFill(scored, result).selected, FOUNDATION_DIMS) then EnsureBlock(st, scored, FOUNDATION_DIMS) else st
  }

  /** The selection after all three blocks have been ensured; which are is decided once, after the fill. */
  function FinalSelection(scored: seq<ScoredAction>, result: AssessmentResult): (r: Selection)
    ensures |r.selected| <= 5
    ensures |AfterFill(scored, result).selected| > 0 ==>
              |r.selected| > 0 && r.selected[0] == AfterFill(scored, result).selected[0]
  {
    var st := AfterGrowthAndFoundation(scored, result);
    if !HasBlock(AfterFill(scored, result).selected, EXECUTION_DIMS) then EnsureBlock(st, scored, EXECUTION_DIMS) else st
  }

  lemma ForcedPickValid(scored: seq<ScoredAction>, flags: seq<EvaluatedRedFlag>)
    ensures Valid(ForcedPick(scored, flags), scored)
    ensures ForcedPick(scored, flags).used == Ids(ForcedPick(scored, flags).selected)
    ensures |ForcedPick(scored, flags).selected| <= 1
  {
    var high := HighFlagCodes(flags);
    if |high| > 0 {
      match Find(scored, AddressesHighAction(high))
      case Some(rf) =>
        PickValid(Selection([], {}), rf, scored);
      case None =>
    }
  }

  lemma AfterFillValid(scored: seq<ScoredAction>, result: AssessmentResult)
    ensures Valid(AfterFill(scored, result), scored)
    ensures AfterFill(scored, result).used == Ids(AfterFill(scored, result).selected)
    ensures |AfterFill(scored, result).selected| <= 5
  {
    ForcedPickValid(scored, result.red_flags);
    FillValid(ForcedPick(scored, result.red_flags), scored, scored);
  }

  lemma AfterGrowthValid(scored: seq<ScoredAction>, result: AssessmentResult)
    ensures Valid(AfterGrowth(scored, result), scored)
  {
    AfterFillValid(scored, result);
    EnsureBlockValid(AfterFill(scored, result), scored, GROWTH_DIMS);
  }

  lemma AfterGrowthAndFoundationValid(scored: seq<ScoredAction>, result: AssessmentResult)
    ensures Valid(AfterGrowthAndFoundation(scored, result), scored)
  {
    AfterGrowthValid(scored, result);
    EnsureBlockValid(AfterGrowth(scored, result), scored, FOUNDATION_DIMS);
  }

  lemma FinalSelectionValid(scored: seq<ScoredAction>, result: AssessmentResult)
    ensures Valid(FinalSelection(scored, result), scored)
  {
    AfterGrowthAndFoundationValid(scored, result);
    EnsureBlockValid(AfterGrowthAndFoundation(scored, result), scored, EXECUTION_DIMS);
  }

  /**
    selectTop5: at most five actions with distinct ids, all among the
    candidates.
   */
  function SelectTop5(scored: seq<ScoredAction>, result: AssessmentResult, config: ConfigJSON): (r: seq<ScoredAction>)
    ensures |r| <= 5
    ensures DistinctIds(r)
    ensures forall i :: 0 <= i < |r| ==> r[i] in scored
  {
    FinalSelectionValid(scored, result);
    Take(FinalSelection(scored, result).selected, 5)
  }

  /** The final selection holds at most five picks, so the closing slice keeps all of them. */
  lemma SelectTop5IsFinal(scored: seq<ScoredAction>, result: AssessmentResult, config: ConfigJSON)
    ensures SelectTop5(scored, result, config) == FinalSelection(scored, result).selected
  {
  }

  /**
    With a serious red flag addressed by some candidate, the first such
    candidate heads the Top 5.
   */
  lemma SelectTop5ForcedFirst(scored: seq<ScoredAction>, result: AssessmentResult, config: ConfigJSON)
    requires exists i :: 0 <= i < |scored| && AddressesHigh(scored[i].action, HighFlagCodes(result.red_flags))
    ensures var r := SelectTop5(scored, result, config);
            |r| > 0
            && exists i :: 0 <= i < |scored| && scored[i] == r[0] && AddressesHigh(r[0].action, HighFlagCodes(result.red_flags))
                 && forall j :: 0 <= j < i ==> !AddressesHigh(scored[j].action, HighFlagCodes(result.red_flags))
  {
    var high := HighFlagCodes(result.red_flags);
    var i :| 0 <= i < |scored| && AddressesHigh(scored[i].action, high);
    assert |high| > 0 by {
      var k :| 0 <= k < |scored[i].action.addresses_red_flags| && scored[i].action.addresses_red_flags[k] in high;
    }
    assert AddressesHighAction(high)(scored[i]);
    var rf := Find(scored, AddressesHighAction(high));
    assert ForcedPick(scored, result.red_flags).selected == [rf.value];
    SelectTop5IsFinal(scored, result, config);
  }

  /** With no candidate addressing a serious red flag, the best-scored candidate heads the Top 5. */
  lemma SelectTop5BestFirst(scored: seq<ScoredAction>, result: AssessmentResult, config: ConfigJSON)
    requires |scored| > 0
    requires forall i :: 0 <= i < |scored| ==> !AddressesHigh(scored[i].action, HighFlagCodes(result.red_flags))
    ensures |SelectTop5(scored, result, config)| > 0 && SelectTop5(scored, result, config)[0] == scored[0]
  {
    var high := HighFlagCodes(result.red_flags);
    assert forall i :: 0 <= i < |scored| ==> !AddressesHighAction(high)(scored[i]);
    assert ForcedPick(scored, result.red_flags) == Selection([], {});
    assert AfterFill(scored, result) == Fill(Pick(Selection([], {}), scored[0]), scored[1..]);
    SelectTop5IsFinal(scored, result, config);
  }

  /**
    When the fill leaves no execution action and an unpicked one exists when
    its turn comes, the Top 5 holds an execution action: the last block
    step is never undone.
   */
  lemma SelectTop5CoversExecution(scored: seq<ScoredAction>, result: AssessmentResult, config: ConfigJSON)
    requires !HasBlock(AfterFill(scored, result).selected, EXECUTION_DIMS)
    requires exists i :: 0 <= i < |scored| && Unused(scored[i], EXECUTION_DIMS, AfterGrowthAndFoundation(scored, result).used)
    ensures HasBlock(SelectTop5(scored, result, config), EXECUTION_DIMS)
  {
    SelectTop5IsFinal(scored, result, config);
    var r := FinalSelection(scored, result).selected;
    assert InBlock(r[|r| - 1], EXECUTION_DIMS);
  }

  /** When the fill stops short of five, every candidate id is picked and the block steps change nothing. */
  lemma ShortFillIsFinal(scored: seq<ScoredAction>, result: AssessmentResult)
    requires |AfterFill(scored, result).selected| < 5
    ensures FinalSelection(scored, result) == AfterFill(scored, result)
  {
    var st := AfterFill(scored, result);
    assert forall i :: 0 <= i < |scored| ==> scored[i].action.id in st.used;
    assert AfterGrowth(scored, result) == st;
    assert AfterGrowthAndFoundation(scored, result) == st;
  }

  /** A full fill stays full through the block steps. */
  lemma FullFillStaysFull(scored: seq<ScoredAction>, result: AssessmentResult)
    requires |AfterFill(scored, result).selected| == 5
    ensures |FinalSelection(scored, result).selected| == 5
  {
    assert |AfterGrowth(scored, result).selected| == 5;
    assert |AfterGrowthAndFoundation(scored, result).selected| == 5;
  }

  /** The Top 5 holds five actions, or every distinct candidate id when there are fewer than five. */
  lemma SelectTop5Size(scored: seq<ScoredAction>, result: AssessmentResult, config: ConfigJSON)
    ensures |SelectTop5(scored, result, config)| == if |Ids(scored)| >= 5 then 5 else |Ids(scored)|
  {
    var st := AfterFill(scored, result);
    AfterFillValid(scored, result);
    DistinctIdsCard(st.selected);
    SelectTop5IsFinal(scored, result, config);
    if |st.selected| < 5 {
      assert Ids(scored) <= st.used;
      assert Ids(scored) == Ids(st.selected);
      ShortFillIsFinal(scored, result);
    } else {
      SubsetCard(Ids(st.selected), Ids(scored));
      FullFillStaysFull(scored, result);
    }
  }

  /**
    Starting from picks none of the candidates share an id with, and
    candidates with distinct ids, the fill loop appends the leading
    candidates until five are selected.
   */
  lemma {:induction false} FillTakesLeading(st: Selection, scored: seq<ScoredAction>, n: nat)
    requires |st.selected| <= 5 && DistinctIds(scored)
    requires forall i :: 0 <= i < |scored| ==> scored[i].action.id !in st.used
    requires n == if |scored| <= 5 - |st.selected| then |scored| else 5 - |st.selected|
    ensures Fill(st, scored).selected == st.selected + scored[..n]
    decreases |scored|
  {
    if |scored| > 0 && |st.selected| < 5 {
      var st' := Pick(st, scored[0]);
      assert st'.selected == st.selected + [scored[0]];
      assert forall i :: 0 <= i < |scored[1..]| ==> scored[1..][i] == scored[i + 1];
      FillTakesLeading(st', scored[1..], n - 1);
      ConsPrefix(st.selected, scored, n);
    } else {
      assert scored[..n] == [];
    }
  }

  /** Appending the head and then a prefix of the tail appends a prefix. */
  lemma ConsPrefix<T>(s: seq<T>, t: seq<T>, n: nat)
    requires 0 < n <= |t|
    ensures s + [t[0]] + t[1..][..n - 1] == s + t[..n]
  {
    assert [t[0]] + t[1..][..n - 1] == t[..n];
    assert s + [t[0]] + t[1..][..n - 1] == s + ([t[0]] + t[1..][..n - 1]);
  }

  /**
    The block steps can undo one another. When the fill leaves five picks
    with execution covered but neither growth nor foundation, and both of
    those blocks have unpicked candidates, the growth step swaps the fifth
    pick for a growth action and the foundation step, decided before the
    growth step ran, swaps that growth action for a foundation one: the
    Top 5 ends without a growth action although one was available.
   */
  lemma GrowthPickEvicted(scored: seq<ScoredAction>, result: AssessmentResult, config: ConfigJSON)
    requires DistinctIds(scored)
    requires |AfterFill(scored, result).selected| == 5
    requires HasBlock(AfterFill(scored, result).selected, EXECUTION_DIMS)
    requires !HasBlock(AfterFill(scored, result).selected, GROWTH_DIMS)
    requires !HasBlock(AfterFill(scored, result).selected, FOUNDATION_DIMS)
    requires exists i :: 0 <= i < |scored| && Unused(scored[i], GROWTH_DIMS, AfterFill(scored, result).used)
    requires exists i :: 0 <= i < |scored| && Unused(scored[i], FOUNDATION_DIMS, AfterFill(scored, result).used)
    ensures HasBlock(scored, GROWTH_DIMS)
    ensures !HasBlock(SelectTop5(scored, result, config), GROWTH_DIMS)
  {
    var fill := AfterFill(scored, result);
    assert FinalSelection(scored, result)
           == EnsureBlock(EnsureBlock(fill, scored, GROWTH_DIMS), scored, FOUNDATION_DIMS);
    SwapsUndoGrowth(fill, scored);
    SelectTop5IsFinal(scored, result, config);
  }

  /** The two block steps of GrowthPickEvicted, on any full selection. */
  lemma SwapsUndoGrowth(st: Selection, scored: seq<ScoredAction>)
    requires DistinctIds(scored) && |st.selected| == 5
    requires !HasBlock(st.selected, GROWTH_DIMS)
    requires exists i :: 0 <= i < |scored| && Unused(scored[i], GROWTH_DIMS, st.used)
    requires exists i :: 0 <= i < |scored| && Unused(scored[i], FOUNDATION_DIMS, st.used)
    ensures !HasBlock(EnsureBlock(EnsureBlock(st, scored, GROWTH_DIMS), scored, FOUNDATION_DIMS).selected, GROWTH_DIMS)
  {
    var growth := EnsureBlock(st, scored, GROWTH_DIMS);
    var g := FirstUnused(scored, GROWTH_DIMS, st.used).value;
    var f := FirstUnused(scored, FOUNDATION_DIMS, st.used).value;
    BlocksDisjoint(scored[f]);
    assert f != g;
    assert Unused(scored[f], FOUNDATION_DIMS, growth.used);
    var final := EnsureBlock(growth, scored, FOUNDATION_DIMS);
    BlocksDisjoint(final.selected[4]);
    forall i | 0 <= i < 5 ensures !InBlock(final.selected[i], GROWTH_DIMS) {
      if i < 4 {
        assert final.selected[i] == growth.selected[i] == st.selected[i];
      }
    }
  }

  /** The block steps only ever touch the fifth place of a full selection. */
  lemma FullFillKeepsFour(scored: seq<ScoredAction>, result: AssessmentResult)
    requires |AfterFill(scored, result).selected| == 5
    ensures |FinalSelection(scored, result).selected| == 5
    ensures FinalSelection(scored, result).selected[..4] == AfterFill(scored, result).selected[..4]
  {
    FullFillStaysFull(scored, result);
    var fill := AfterFill(scored, result).selected;
    var growth := AfterGrowth(scored, result).selected;
    var foundation := AfterGrowthAndFoundation(scored, result).selected;
    var final := FinalSelection(scored, result).selected;
    assert growth[..4] == fill[..4];
    assert foundation[..4] == growth[..4];
    assert final[..4] == foundation[..4];
  }

  /**
    Without a candidate addressing a serious red flag, and with distinct
    ids, the four best-scored candidates open the Top 5 in order; only the
    fifth place is subject to block coverage.
   */
  lemma SelectTop5KeepsLeading(scored: seq<ScoredAction>, result: AssessmentResult, config: ConfigJSON)
    requires DistinctIds(scored) && |scored| >= 5
    requires forall i :: 0 <= i < |scored| ==> !AddressesHigh(scored[i].action, HighFlagCodes(result.red_flags))
    ensures |SelectTop5(scored, result, config)| == 5
    ensures SelectTop5(scored, result, config)[..4] == scored[..4]
  {
    var high := HighFlagCodes(result.red_flags);
    assert forall i :: 0 <= i < |scored| ==> !AddressesHighAction(high)(scored[i]);
    assert ForcedPick(scored, result.red_flags) == Selection([], {});
    FillTakesLeading(Selection([], {}), scored, 5);
    assert AfterFill(scored, result).selected == scored[..5];
    FullFillKeepsFour(scored, result);
    SelectTop5IsFinal(scored, result, config);
  }

  // ---------------------------------------------------------------------
  // generateMeetingAgenda
  // ---------------------------------------------------------------------

  /** What an agenda item is about; the wording is derived from these fields. */
  datatype Topic =
    | Strengthen(gap: ReportHelpers.PrioritizedGap)
    | RedFlagTopic(flag: EvaluatedRedFlag)
    | Develop(gap: ReportHelpers.PrioritizedGap)

  /** A prompt to dig into: a configured one, or the generic "how to raise the score" question. */
  datatype Prompt =
    | Configured(text: string)
    | RaiseScore(name: string, from: int, to: int)

  /** The decision an item should end with. */
  datatype Decision =
    | DefinePriorityAction(name: string)
    | ApprovePlan(name: string)
    | ResolveFlag(name: string)
    | PlanInitiative(name: string)

  datatype AgendaItem = AgendaItem(
    topic: Topic,
    prompts: seq<Prompt>,
    decision: Decision,
    context_checks: seq<string>)

  /** The figures checked when a red flag is discussed. */
  const CONTEXT_CHECKS: seq<string> := ["runway_months", "burn_monthly", "revenue_concentration_top1_pct"]

  /** `(ddMap[id] || []).slice(0, 2)`: the first two configured prompts of a dimension. */
  function DeepDivePrompts(dd: Record<seq<string>>, id: string): (ps: seq<Prompt>)
    ensures |ps| <= 2
    ensures forall k :: 0 <= k < |ps| ==> ps[k].Configured?
    ensures Lookup(dd, id).None? ==> ps == []
    ensures Lookup(dd, id).Some? ==>
              (|ps| == (if |Lookup(dd, id).value| < 2 then |Lookup(dd, id).value| else 2)
               && forall k :: 0 <= k < |ps| ==> ps[k].text == Lookup(dd, id).value[k])
  {
    var list := match Lookup(dd, id) case Some(l) => l case None => [];
    Map(Take(list, 2), (t: string) => Configured(t))
  }

  /** Item `i` (0 or 1) of the agenda: one of the two highest-priority gaps. */
  function GapAgendaItem(gap: ReportHelpers.PrioritizedGap, i: nat, dd: Record<seq<string>>): (item: AgendaItem)
    ensures 1 <= |item.prompts| <= 2
    ensures |DeepDivePrompts(dd, gap.dimension_id)| > 0 ==> item.prompts == DeepDivePrompts(dd, gap.dimension_id)
    ensures |DeepDivePrompts(dd, gap.dimension_id)| == 0 ==> item.prompts == [RaiseScore(gap.name, gap.score100, gap.target100)]
  {
    var prompts := DeepDivePrompts(dd, gap.dimension_id);
    AgendaItem(Strengthen(gap),
               if |prompts| > 0 then prompts else [RaiseScore(gap.name, gap.score100, gap.target100)],
               if i == 0 then DefinePriorityAction(gap.name) else ApprovePlan(gap.name),
               [])
  }

  /** `{ critical: 4, high: 3, medium_high: 2, medium: 1, low: 0 }[severity] || 0`. */
  function SeverityRank(rf: EvaluatedRedFlag): real
  {
    match rf.severity
    case "critical" => 4.0
    case "high" => 3.0
    case "medium_high" => 2.0
    case "medium" => 1.0
    case _ => 0.0
  }

  /** `result.red_flags.sort(by severity rank, highest first)[0]`. */
  function TopRedFlag(flags: seq<EvaluatedRedFlag>): (o: Option<EvaluatedRedFlag>)
    ensures o.None? <==> |flags| == 0
    ensures o.Some? ==> o.value == flags[FirstMaxIndex(flags, SeverityRank)]
  {
    if |flags| == 0 then None
    else
      HeadOfSortDesc(flags, SeverityRank);
      Some(SortDesc(flags, SeverityRank)[0])
  }

  /** The red-flag item: the flag's first two actions as prompts, and the runway/burn/concentration checks. */
  function FlagAgendaItem(rf: EvaluatedRedFlag): (item: AgendaItem)
    ensures item.topic == RedFlagTopic(rf) && item.context_checks == CONTEXT_CHECKS
    ensures |item.prompts| == (if |rf.actions| < 2 then |rf.actions| else 2)
    ensures forall k :: 0 <= k < |item.prompts| ==> item.prompts[k] == Configured(rf.actions[k])
    ensures item.decision == ResolveFlag(rf.name)
  {
    AgendaItem(RedFlagTopic(rf), Map(Take(rf.actions, 2), (t: string) => Configured(t)), ResolveFlag(rf.name), CONTEXT_CHECKS)
  }

  /** The third-gap item, used when no red flag fired; it has no generic prompt to fall back on. */
  function ThirdGapAgendaItem(gap: ReportHelpers.PrioritizedGap, dd: Record<seq<string>>): (item: AgendaItem)
    ensures item.topic == Develop(gap) && item.prompts == DeepDivePrompts(dd, gap.dimension_id)
    ensures item.decision == PlanInitiative(gap.name) && item.context_checks == []
  {
    AgendaItem(Develop(gap), DeepDivePrompts(dd, gap.dimension_id), PlanInitiative(gap.name), [])
  }

  /** Items 1 and 2: the first two gaps, the first asking for a priority action, the second for a plan. */
  function LeadGapItems(gaps: seq<ReportHelpers.PrioritizedGap>, dd: Record<seq<string>>): (items: seq<AgendaItem>)
    ensures |items| == if |gaps| < 2 then |gaps| else 2
    ensures forall i :: 0 <= i < |items| ==> items[i].topic == Strengthen(gaps[i]) && 1 <= |items[i].prompts| <= 2
    ensures |items| > 0 ==> items[0].decision == DefinePriorityAction(gaps[0].name)
    ensures |items| > 1 ==> items[1].decision == ApprovePlan(gaps[1].name)
    ensures forall i :: 0 <= i < |items| ==> items[i] == GapAgendaItem(gaps[i], i, dd)
  {
    var lead := Take(gaps, 2);
    seq(|lead|, i requires 0 <= i < |lead| => GapAgendaItem(lead[i], i, dd))
  }

  /** The agenda for given gaps (highest priority first) and fired red flags. */
  function AgendaFor(gaps: seq<ReportHelpers.PrioritizedGap>, flags: seq<EvaluatedRedFlag>,
                     dd: Record<seq<string>>): (items: seq<AgendaItem>)
    ensures |items| == |LeadGapItems(gaps, dd)| + (if |flags| > 0 || |gaps| > 2 then 1 else 0)
    ensures items[..|LeadGapItems(gaps, dd)|] == LeadGapItems(gaps, dd)
    ensures |flags| > 0 ==> items[|items| - 1] == FlagAgendaItem(flags[FirstMaxIndex(flags, SeverityRank)])
    ensures |flags| == 0 && |gaps| > 2 ==> items[2] == ThirdGapAgendaItem(gaps[2], dd)
    ensures |items| <= 3
  {
    var gapItems := LeadGapItems(gaps, dd);
    match TopRedFlag(flags)
    case Some(rf) => gapItems + [FlagAgendaItem(rf)]
    case None =>
      if |gaps| > 2 then gapItems + [ThirdGapAgendaItem(gaps[2], dd)] else gapItems
  }

  /**
    generateMeetingAgenda: the two highest-priority gaps, then the most
    severe red flag or, with none fired, the third gap; never more than
    three items.
   */
  function GenerateMeetingAgenda(config: ConfigJSON, result: AssessmentResult, stage: string): (items: seq<AgendaItem>)
    ensures |items| <= 3
    ensures |result.red_flags| > 0 ==>
              |items| > 0 && items[|items| - 1].topic == RedFlagTopic(result.red_flags[FirstMaxIndex(result.red_flags, SeverityRank)])
  {
    AgendaFor(ReportHelpers.ComputeGaps(result.dimension_scores, config, stage), result.red_flags, config.deep_dive_prompts)
  }

  /** The agenda opens with a gap no other gap outranks in priority. */
  lemma AgendaLeadsWithTopGap(config: ConfigJSON, result: AssessmentResult, stage: string)
    requires |ReportHelpers.ComputeGaps(result.dimension_scores, config, stage)| > 0
    ensures var gaps := ReportHelpers.ComputeGaps(result.dimension_scores, config, stage);
            var items := GenerateMeetingAgenda(config, result, stage);
            items[0].topic.Strengthen?
            && forall j :: 0 <= j < |gaps| ==> gaps[j].priority_score <= items[0].topic.gap.priority_score
  {
    var gaps := ReportHelpers.ComputeGaps(result.dimension_scores, config, stage);
    var items := GenerateMeetingAgenda(config, result, stage);
    assert items[0] == LeadGapItems(gaps, config.deep_dive_prompts)[0];
    assert forall j :: 0 <= j < |gaps| ==> ReportHelpers.GapPriority(gaps[j]) <= ReportHelpers.GapPriority(gaps[0]);
  }

  /** With no red flag fired and more than two gaps, the third gap closes the agenda with its configured prompts only. */
  lemma AgendaThirdGap(config: ConfigJSON, result: AssessmentResult, stage: string)
    requires |result.red_flags| == 0 && |ReportHelpers.ComputeGaps(result.dimension_scores, config, stage)| > 2
    ensures var gaps := ReportHelpers.ComputeGaps(result.dimension_scores, config, stage);
            var items := GenerateMeetingAgenda(config, result, stage);
            |items| == 3 && items[2].topic == Develop(gaps[2])
            && items[2].prompts == DeepDivePrompts(config.deep_dive_prompts, gaps[2].dimension_id)
  {
    var gaps := ReportHelpers.ComputeGaps(result.dimension_scores, config, stage);
    assert GenerateMeetingAgenda(config, result, stage) == AgendaFor(gaps, result.red_flags, config.deep_dive_prompts);
  }

  /** The most severe red flag is a flag of the highest rank, the earliest among equals. */
  lemma TopRedFlagMostSevere(flags: seq<EvaluatedRedFlag>)
    requires |flags| > 0
    ensures var top := TopRedFlag(flags).value;
            (exists i :: 0 <= i < |flags| && flags[i] == top
               && (forall j :: 0 <= j < i ==> SeverityRank(flags[j]) < SeverityRank(top)))
            && forall j :: 0 <= j < |flags| ==> SeverityRank(flags[j]) <= SeverityRank(top)
  {
    var i := FirstMaxIndex(flags, SeverityRank);
    assert flags[i] == TopRedFlag(flags).value;
  }

  // ---------------------------------------------------------------------
  // compute2x2Matrix
  // ---------------------------------------------------------------------

  datatype Quadrant = HighRiskHighImpact | LowRiskHighImpact | HighRiskLowImpact | LowRiskLowImpact

  datatype PointKind = DimensionPoint | RedFlagPoint

  /** A point of the risk/impact matrix; impact and risk are on a 0-100 scale. */
  datatype MatrixPoint = MatrixPoint(
    id: string,
    name: string,
    impact: real,
    risk: real,
    kind: PointKind,
    quadrant: Quadrant)

  /** The quadrant of a point: impact and risk of 50 or more count as high. */
  function QuadrantOf(impact: real, risk: real): (q: Quadrant)
    ensures (q == HighRiskHighImpact || q == LowRiskHighImpact) <==> impact >= 50.0
    ensures (q == HighRiskHighImpact || q == HighRiskLowImpact) <==> risk >= 50.0
  {
    if impact >= 50.0 then (if risk >= 50.0 then HighRiskHighImpact else LowRiskHighImpact)
    else (if risk >= 50.0 then HighRiskLowImpact else LowRiskLowImpact)
  }

  /** The dimensions treated as structurally risky. */
  const STRUCTURAL_DIMS: seq<string> := ["FS", "GR", "PT"]

  /** `{ critical: 4, high: 3, medium_high: 2, medium: 1, low: 0.5 }[severity] || 1`. */
  function SeverityPoints(severity: string): (p: real)
    ensures p >= 0.5
  {
    match severity
    case "critical" => 4.0
    case "high" => 3.0
    case "medium_high" => 2.0
    case "medium" => 1.0
    case "low" => 0.5
    case _ => 1.0
  }

  /** How many triggers of a rule name dimension `id`; a trigger without a dimension (or an empty one) names none. */
  function TriggerHits(triggers: seq<Trigger>, id: string): (n: nat)
    ensures n <= |triggers|
    ensures n > 0 <==> id != "" && exists k :: 0 <= k < |triggers| && triggers[k].dimension_id == Some(id)
  {
    if |triggers| == 0 then 0
    else
      var rest := TriggerHits(triggers[1..], id);
      assert forall k :: 1 <= k < |triggers| ==> triggers[k] == triggers[1..][k - 1];
      (if id != "" && triggers[0].dimension_id == Some(id) then 1 else 0) + rest
  }

  /** The configured rule of a fired flag has a trigger on dimension `id`. */
  predicate FlagTouches(config: ConfigJSON, code: string, id: string)
  {
    match FindConfigFlag(config, code)
    case Some(rule) => TriggerHits(rule.triggers, id) > 0
    case None => false
  }

  /** The triggers on dimension `id` of the configured rule of a fired flag. */
  function RuleHits(config: ConfigJSON, code: string, id: string): (n: nat)
    ensures n > 0 <==> FlagTouches(config, code, id)
  {
    match FindConfigFlag(config, code)
    case Some(rule) => TriggerHits(rule.triggers, id)
    case None => 0
  }

  /** Some fired flag's configured rule has a trigger on dimension `id`. */
  predicate AnyTouches(config: ConfigJSON, flags: seq<EvaluatedRedFlag>, id: string)
  {
    |flags| > 0 && (FlagTouches(config, flags[0].code, id) || AnyTouches(config, flags[1..], id))
  }

  lemma {:induction false} AnyTouchesExists(config: ConfigJSON, flags: seq<EvaluatedRedFlag>, id: string)
    ensures AnyTouches(config, flags, id) <==> exists i :: 0 <= i < |flags| && FlagTouches(config, flags[i].code, id)
  {
    if |flags| > 0 {
      AnyTouchesExists(config, flags[1..], id);
      assert forall i :: 1 <= i < |flags| ==> flags[i] == flags[1..][i - 1];
    }
  }

  /** `rfByDim[id] || 0`: the severity points of the fired flags, counted once per trigger of their rule on `id`. */
  function RedFlagPoints(config: ConfigJSON, flags: seq<EvaluatedRedFlag>, id: string): (p: real)
    ensures p >= 0.0
    ensures p > 0.0 ==> p >= 0.5
    ensures p > 0.0 <==> AnyTouches(config, flags, id)
  {
    if |flags| == 0 then 0.0
    else
      var rest := RedFlagPoints(config, flags[1..], id);
      var hits := RuleHits(config, flags[0].code, id);
      PointsStep(SeverityPoints(flags[0].severity), hits, rest);
      SeverityPoints(flags[0].severity) * hits as real + rest
  }

  lemma PointsStep(sp: real, hits: nat, rest: real)
    requires sp >= 0.5 && rest >= 0.0 && (rest > 0.0 ==> rest >= 0.5)
    ensures sp * hits as real + rest >= 0.0
    ensures sp * hits as real + rest > 0.0 <==> hits > 0 || rest > 0.0
    ensures sp * hits as real + rest > 0.0 ==> sp * hits as real + rest >= 0.5
  {
    if hits > 0 {
      assert sp * hits as real >= sp * 1.0;
    }
  }

  /** `Math.max(...gaps.map((g) => g.priority_score), 1)`. */
  function MaxPriority(gaps: seq<ReportHelpers.PrioritizedGap>): (m: real)
    ensures m >= 1.0
    ensures forall i :: 0 <= i < |gaps| ==> gaps[i].priority_score <= m
    ensures m == 1.0 || exists i :: 0 <= i < |gaps| && gaps[i].priority_score == m
  {
    if |gaps| == 0 then 1.0
    else
      var rest := MaxPriority(gaps[1..]);
      assert forall i :: 1 <= i < |gaps| ==> gaps[i] == gaps[1..][i - 1];
      Max(gaps[0].priority_score, rest)
  }

  /** `ds ? Math.max(0, 60 - scoreTo100(ds.score)) : 0`: how far the dimension's score sits below 60. */
  function LowScore(scores: seq<DimensionScore>, id: string): (r: real)
    ensures r >= 0.0
    ensures r > 0.0 ==> exists i :: 0 <= i < |scores| && scores[i].dimension_id == id
                          && r == 60.0 - ReportHelpers.ScoreTo100(scores[i].score) as real
    ensures forall i :: FirstWithId(scores, id, i) ==>
              r == Max(0.0, 60.0 - ReportHelpers.ScoreTo100(scores[i].score) as real)
    ensures (forall i :: 0 <= i < |scores| ==> scores[i].dimension_id != id) ==> r == 0.0
  {
    match Find(scores, (d: DimensionScore) => d.dimension_id == id)
    case Some(d) => Max(0.0, 60.0 - ReportHelpers.ScoreTo100(d.score) as real)
    case None => 0.0
  }

  /** `Math.min(100, Math.round(priority / maxPriority * 100))`. */
  function ImpactOf(priority: real, maxPriority: real): (impact: real)
    requires maxPriority >= 1.0
    ensures impact <= 100.0
    ensures priority >= 0.0 ==> impact >= 0.0
    ensures priority >= maxPriority ==> impact == 100.0
    ensures 0.0 <= priority <= maxPriority ==>
              impact - 0.5 <= priority / maxPriority * 100.0 < impact + 0.5
  {
    var x := priority / maxPriority * 100.0;
    assert priority >= maxPriority ==> x >= 100.0 by {
      if priority >= maxPriority {
        DivSelf(maxPriority);
        QuotientMonotone(maxPriority, priority, maxPriority, maxPriority / maxPriority, priority / maxPriority);
      }
    }
    assert priority <= maxPriority ==> x <= 100.0 by {
      if priority <= maxPriority {
        DivSelf(maxPriority);
        QuotientMonotone(priority, maxPriority, maxPriority, priority / maxPriority, maxPriority / maxPriority);
      }
    }
    assert priority >= 0.0 ==> x >= 0.0;
    Min(100.0, Round(x) as real)
  }

  lemma ImpactMonotone(p: real, q: real, m: real)
    requires m >= 1.0 && p <= q
    ensures ImpactOf(p, m) <= ImpactOf(q, m)
  {
    QuotientMonotone(p, q, m, p / m, q / m);
    RoundMonotone(p / m * 100.0, q / m * 100.0);
  }

  /** `Math.min(100, lowScore + structuralBonus + rfRisk)`. */
  function RiskOf(lowScore: real, structural: bool, rfPoints: real): (risk: real)
    requires lowScore >= 0.0 && rfPoints >= 0.0
    ensures 0.0 <= risk <= 100.0
    ensures structural ==> risk >= 15.0
    ensures rfPoints > 0.0 ==> risk >= rfPoints * 10.0 || risk == 100.0
    ensures lowScore + (if structural then 15.0 else 0.0) + rfPoints * 10.0 < 100.0 ==>
              risk == lowScore + (if structural then 15.0 else 0.0) + rfPoints * 10.0
    ensures lowScore + (if structural then 15.0 else 0.0) + rfPoints * 10.0 >= 100.0 ==> risk == 100.0
  {
    Min(100.0, lowScore + (if structural then 15.0 else 0.0) + rfPoints * 10.0)
  }

  /** The matrix point of one gap. */
  function GapPoint(gap: ReportHelpers.PrioritizedGap, maxPriority: real, scores: seq<DimensionScore>,
                    config: ConfigJSON, flags: seq<EvaluatedRedFlag>): (pt: MatrixPoint)
    requires maxPriority >= 1.0
    ensures pt.kind == DimensionPoint && pt.id == gap.dimension_id && pt.name == gap.name
    ensures pt.impact <= 100.0 && 0.0 <= pt.risk <= 100.0
    ensures gap.priority_score >= 0.0 ==> pt.impact >= 0.0
    ensures gap.dimension_id in STRUCTURAL_DIMS ==> pt.risk >= 15.0
    ensures AnyTouches(config, flags, gap.dimension_id) ==> pt.risk >= 5.0
    ensures pt.quadrant == QuadrantOf(pt.impact, pt.risk)
    ensures pt.impact == ImpactOf(gap.priority_score, maxPriority)
    ensures pt.risk == RiskOf(LowScore(scores, gap.dimension_id), gap.dimension_id in STRUCTURAL_DIMS,
                              RedFlagPoints(config, flags, gap.dimension_id))
  {
    var impact := ImpactOf(gap.priority_score, maxPriority);
    var risk := RiskOf(LowScore(scores, gap.dimension_id), gap.dimension_id in STRUCTURAL_DIMS,
                       RedFlagPoints(config, flags, gap.dimension_id));
    MatrixPoint(gap.dimension_id, gap.name, impact, risk, DimensionPoint, QuadrantOf(impact, risk))
  }

  /** `sevImpact[severity] || 50`. */
  function FlagImpact(severity: string): real
  {
    match severity
    case "critical" => 90.0
    case "high" => 75.0
    case "medium_high" => 55.0
    case "medium" => 40.0
    case "low" => 20.0
    case _ => 50.0
  }

  /** `sevRisk[severity] || 50`. */
  function FlagRisk(severity: string): real
  {
    match severity
    case "critical" => 95.0
    case "high" => 80.0
    case "medium_high" => 60.0
    case "medium" => 45.0
    case "low" => 25.0
    case _ => 50.0
  }

  /** The matrix point of one fired red flag, placed by severity alone. */
  function FlagPoint(rf: EvaluatedRedFlag): (pt: MatrixPoint)
    ensures pt.kind == RedFlagPoint && pt.id == rf.code && pt.name == rf.name
    ensures 0.0 <= pt.impact <= 100.0 && 0.0 <= pt.risk <= 100.0
    ensures pt.quadrant == QuadrantOf(pt.impact, pt.risk)
    ensures pt.impact == FlagImpact(rf.severity) && pt.risk == FlagRisk(rf.severity)
  {
    var impact := FlagImpact(rf.severity);
    var risk := FlagRisk(rf.severity);
    MatrixPoint(rf.code, rf.name, impact, risk, RedFlagPoint, QuadrantOf(impact, risk))
  }

  /**
    A fired flag lands in the high-risk, high-impact quadrant unless its
    severity is medium or low, which land in the low-risk, low-impact one.
   */
  lemma FlagQuadrants(rf: EvaluatedRedFlag)
    ensures FlagPoint(rf).quadrant == (if rf.severity == "medium" || rf.severity == "low" then LowRiskLowImpact
                                       else HighRiskHighImpact)
  {
  }

  /** Severity ranks the flag's impact and risk: critical above high above medium_high above medium above low. */
  lemma FlagPointsOrdered()
    ensures FlagImpact("critical") > FlagImpact("high") > FlagImpact("medium_high") > FlagImpact("medium") > FlagImpact("low")
    ensures FlagRisk("critical") > FlagRisk("high") > FlagRisk("medium_high") > FlagRisk("medium") > FlagRisk("low")
  {
  }

  /** The matrix points of the gaps, in gap order. */
  function GapPoints(gaps: seq<ReportHelpers.PrioritizedGap>, m: real, scores: seq<DimensionScore>, config: ConfigJSON,
                     flags: seq<EvaluatedRedFlag>): (points: seq<MatrixPoint>)
    requires m >= 1.0
    ensures |points| == |gaps|
    ensures forall i :: 0 <= i < |gaps| ==> points[i] == GapPoint(gaps[i], m, scores, config, flags)
  {
    Map(gaps, (g: ReportHelpers.PrioritizedGap) requires m >= 1.0 => GapPoint(g, m, scores, config, flags))
  }

  /** The gap points then the red-flag points. */
  function MatrixFor(gaps: seq<ReportHelpers.PrioritizedGap>, scores: seq<DimensionScore>, config: ConfigJSON,
                     flags: seq<EvaluatedRedFlag>): (points: seq<MatrixPoint>)
    ensures |points| == |gaps| + |flags|
    ensures forall i :: 0 <= i < |gaps| ==> points[i] == GapPoint(gaps[i], MaxPriority(gaps), scores, config, flags)
    ensures forall j :: 0 <= j < |flags| ==> points[|gaps| + j] == FlagPoint(flags[j])
    ensures forall i :: 0 <= i < |points| ==>
              points[i].impact <= 100.0 && 0.0 <= points[i].risk <= 100.0
              && points[i].quadrant == QuadrantOf(points[i].impact, points[i].risk)
  {
    var gapPoints := GapPoints(gaps, MaxPriority(gaps), scores, config, flags);
    var flagPoints := Map(flags, (rf: EvaluatedRedFlag) => FlagPoint(rf));
    var points := gapPoints + flagPoints;
    forall i | 0 <= i < |points|
      ensures points[i].impact <= 100.0 && 0.0 <= points[i].risk <= 100.0
      ensures points[i].quadrant == QuadrantOf(points[i].impact, points[i].risk)
    {
      if i < |gapPoints| {
        assert points[i] == gapPoints[i];
      } else {
        assert points[i] == flagPoints[i - |gapPoints|];
      }
    }
    points
  }

  /**
    compute2x2Matrix: one point per gap, in priority order, then one per
    fired red flag; every point on the 0-100 scales and in the quadrant its
    impact and risk select.
   */
  function Compute2x2Matrix(config: ConfigJSON, result: AssessmentResult, stage: string): (points: seq<MatrixPoint>)
    ensures var gaps := ReportHelpers.ComputeGaps(result.dimension_scores, config, stage);
            |points| == |gaps| + |result.red_flags|
            && (forall i :: 0 <= i < |gaps| ==> points[i].kind == DimensionPoint && points[i].id == gaps[i].dimension_id)
            && (forall j :: 0 <= j < |result.red_flags| ==>
                  points[|gaps| + j].kind == RedFlagPoint && points[|gaps| + j].id == result.red_flags[j].code)
    ensures forall i :: 0 <= i < |points| ==>
              points[i].impact <= 100.0 && 0.0 <= points[i].risk <= 100.0
              && points[i].quadrant == QuadrantOf(points[i].impact, points[i].risk)
  {
    MatrixFor(ReportHelpers.ComputeGaps(result.dimension_scores, config, stage), result.dimension_scores, config,
              result.red_flags)
  }

  /** Gap points are ordered by impact, highest first. */
  lemma MatrixImpactOrder(config: ConfigJSON, result: AssessmentResult, stage: string, i: nat, j: nat)
    requires i <= j < |ReportHelpers.ComputeGaps(result.dimension_scores, config, stage)|
    ensures Compute2x2Matrix(config, result, stage)[i].impact >= Compute2x2Matrix(config, result, stage)[j].impact
  {
    var gaps := ReportHelpers.ComputeGaps(result.dimension_scores, config, stage);
    var m := MaxPriority(gaps);
    assert ReportHelpers.GapPriority(gaps[j]) <= ReportHelpers.GapPriority(gaps[i]);
    ImpactMonotone(gaps[j].priority_score, gaps[i].priority_score, m);
  }

  /** The highest-priority gap, when its priority is 1 or more, has impact 100. */
  lemma MatrixTopImpact(config: ConfigJSON, result: AssessmentResult, stage: string)
    requires |ReportHelpers.ComputeGaps(result.dimension_scores, config, stage)| > 0
    requires ReportHelpers.ComputeGaps(result.dimension_scores, config, stage)[0].priority_score >= 1.0
    ensures Compute2x2Matrix(config, result, stage)[0].impact == 100.0
  {
    var gaps := ReportHelpers.ComputeGaps(result.dimension_scores, config, stage);
    assert forall k :: 0 <= k < |gaps| ==> ReportHelpers.GapPriority(gaps[k]) <= ReportHelpers.GapPriority(gaps[0]);
    assert MaxPriority(gaps) == gaps[0].priority_score;
  }

  /** With no negative stage weight, every gap has a non-negative priority. */
  lemma GapPriorityNonNegative(config: ConfigJSON, result: AssessmentResult, stage: string, i: nat)
    requires NonNegativeWeights(StageWeights(config, stage))
    requires i < |ReportHelpers.ComputeGaps(result.dimension_scores, config, stage)|
    ensures ReportHelpers.ComputeGaps(result.dimension_scores, config, stage)[i].priority_score >= 0.0
  {
    var gaps := ReportHelpers.ComputeGaps(result.dimension_scores, config, stage);
    var weights := StageWeights(config, stage);
    ReportHelpers.ComputeGapsSound(result.dimension_scores, config, stage, i);
    var j :| 0 <= j < |result.dimension_scores| && gaps[i]
             == ReportHelpers.GapOf(result.dimension_scores[j], StageTargets(config, stage), weights);
    GapOfPriorityNonNegative(result.dimension_scores[j], StageTargets(config, stage), weights);
  }

  lemma GapOfPriorityNonNegative(d: DimensionScore, targets: Record<real>, weights: Record<real>)
    requires NonNegativeWeights(weights)
    ensures ReportHelpers.GapOf(d, targets, weights).priority_score >= 0.0
  {
    var g := ReportHelpers.GapOf(d, targets, weights);
    WeightPositive(weights, d.dimension_id);
    ProductNonNegative(g.gap_potential as real, WeightOf(weights, d.dimension_id));
  }

  /** With no negative stage weight, every gap point has a non-negative impact. */
  lemma MatrixImpactNonNegative(config: ConfigJSON, result: AssessmentResult, stage: string, i: nat)
    requires NonNegativeWeights(StageWeights(config, stage))
    requires i < |ReportHelpers.ComputeGaps(result.dimension_scores, config, stage)|
    ensures Compute2x2Matrix(config, result, stage)[i].impact >= 0.0
  {
    var gaps := ReportHelpers.ComputeGaps(result.dimension_scores, config, stage);
    GapPriorityNonNegative(config, result, stage, i);
    assert Compute2x2Matrix(config, result, stage)[i]
           == GapPoint(gaps[i], MaxPriority(gaps), result.dimension_scores, config, result.red_flags);
  }

  lemma QuotientMonotone(p: real, q: real, m: real, a: real, b: real)
    requires m > 0.0 && p <= q && a == p / m && b == q / m
    ensures a <= b
  {
    assert a * m == p && b * m == q;
    if a > b {
      ProductStrict(a, b, m);
    }
  }

  lemma ProductStrict(a: real, b: real, m: real)
    requires a > b && m > 0.0
    ensures a * m > b * m
  {
  }

  lemma DivSelf(x: real)
    requires x != 0.0
    ensures x / x == 1.0
  {
  }

  lemma ProductNonNegative(x: real, y: real)
    requires x >= 0.0 && y >= 0.0
    ensures x * y >= 0.0
  {
  }
}
