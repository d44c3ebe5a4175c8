/** `buildRemediationPlan`: what a cleanup agent should do — which segments to
    clean and which kinds of instruction to remove — without saying how. */
module BuildRemediationPlan {
  import opened Wrappers
  import opened Js
  import opened PiDetections
  import opened AalTypes
  import opened IslTypes
  import opened ValidatePolicy

  const STRATEGY_AI_CLEANUP: string := "AI_CLEANUP"

  const DEFAULT_CONSTRAINTS: seq<string> :=
    ["preserve_user_intent", "do_not_add_information", "do_not_change_language"]

  datatype RemediationPlan = RemediationPlan(
    strategy: string,
    goals: seq<string>,
    constraints: seq<string>,
    targetSegments: seq<string>,
    needsRemediation: bool)

  const EMPTY_PLAN: RemediationPlan := RemediationPlan(STRATEGY_AI_CLEANUP, [], DEFAULT_CONSTRAINTS, [], false)

  /** Why the builder throws: the remediation flag is not a boolean, or the
      thresholds are invalid. */
  datatype RemediationError = RemediationEnabledNotBoolean | InvalidThresholds(error: PolicyError)

  /** `patternTypeToGoal`: every '-' becomes '_', the result is lower-cased and
      prefixed with `remove_`. */
  function PatternTypeToGoal(patternType: string): (g: string)
    ensures |g| == |patternType| + 7 && g[..7] == "remove_"
    ensures forall i :: 0 <= i < |patternType| ==>
      g[7 + i] == (if patternType[i] == '-' then '_' else LowerChar(patternType[i]))
  {
    "remove_" + ToLowerAscii(ReplaceAllChar(patternType, '-', '_'))
  }

  /** No goal contains a hyphen. */
  lemma GoalShape(patternType: string)
    ensures forall i :: 0 <= i < |PatternTypeToGoal(patternType)| ==> PatternTypeToGoal(patternType)[i] != '-'
  {
    var g := PatternTypeToGoal(patternType);
    forall i | 0 <= i < |g| ensures g[i] != '-' {
      if i < 7 {
        assert g[i] == g[..7][i];
      }
    }
  }

  predicate NoDuplicates(s: seq<string>) {
    forall j, k :: 0 <= j < k < |s| ==> s[j] != s[k]
  }

  /** The goal set in insertion order: one goal per distinct goal of the
      detections, as a JavaScript `Set` holds them. */
  function GoalsOf(ds: seq<PiDetection>): (gs: seq<string>)
    ensures NoDuplicates(gs)
    ensures forall g :: g in gs <==> exists k :: 0 <= k < |ds| && g == PatternTypeToGoal(ds[k].patternType)
  {
    if |ds| == 0 then []
    else
      var init := ds[..|ds| - 1];
      var rest := GoalsOf(init);
      var g := PatternTypeToGoal(ds[|ds| - 1].patternType);
      assert forall k :: 0 <= k < |init| ==> init[k] == ds[k];
      if g in rest then rest else rest + [g]
  }

  /** Strictly increasing in lexicographic order, hence also duplicate-free. */
  predicate StrictlySorted(s: seq<string>) {
    forall j, k :: 0 <= j < k < |s| ==> StrLess(s[j], s[k])
  }

  /** Inserts `x` after every element that sorts before it. */
  function InsertSorted(x: string, s: seq<string>): (out: seq<string>)
    ensures multiset(out) == multiset(s) + multiset{x}
    ensures |out| == |s| + 1
  {
    if |s| == 0 then [x]
    else if StrLess(s[|s| - 1], x) then s + [x]
    else
      assert s == s[..|s| - 1] + [s[|s| - 1]];
      InsertSorted(x, s[..|s| - 1]) + [s[|s| - 1]]
  }

  lemma {:induction false} InsertSortedSorted(x: string, s: seq<string>)
    requires StrictlySorted(s) && x !in s
    ensures StrictlySorted(InsertSorted(x, s))
  {
    if |s| > 0 {
      var init := s[..|s| - 1];
      var last := s[|s| - 1];
      if StrLess(last, x) {
        var out := s + [x];
        forall j, k | 0 <= j < k < |out| ensures StrLess(out[j], out[k]) {
          if k == |s| && j < |s| - 1 {
            StrLessTransitive(s[j], last, x);
          }
        }
      } else {
        StrLessTotal(last, x);
        assert StrLess(x, last);
        assert x !in init;
        InsertSortedSorted(x, init);
        var rest := InsertSorted(x, init);
        forall k | 0 <= k < |rest| ensures StrLess(rest[k], last) {
          assert rest[k] in multiset(rest);
          if rest[k] != x {
            assert rest[k] in multiset(init);
            var m :| 0 <= m < |init| && init[m] == rest[k];
            assert s[m] == init[m];
          }
        }
        var out := rest + [last];
        forall j, k | 0 <= j < k < |out| ensures StrLess(out[j], out[k]) {
          if k < |rest| {
            assert out[j] == rest[j] && out[k] == rest[k];
          }
        }
      }
    }
  }

  /** `[...goalsSet].sort((a, b) => a.localeCompare(b))`, with the locale order
      taken as lexicographic order of character codes. */
  function SortStrings(s: seq<string>): (out: seq<string>)
    ensures multiset(out) == multiset(s)
    ensures |out| == |s|
  {
    if |s| == 0 then []
    else
      assert s == s[..|s| - 1] + [s[|s| - 1]];
      InsertSorted(s[|s| - 1], SortStrings(s[..|s| - 1]))
  }

  /** Sorting a duplicate-free list gives a strictly increasing one. */
  lemma {:induction false} SortStringsSorted(s: seq<string>)
    requires NoDuplicates(s)
    ensures StrictlySorted(SortStrings(s))
  {
    if |s| > 0 {
      var init := s[..|s| - 1];
      var x := s[|s| - 1];
      assert NoDuplicates(init);
      SortStringsSorted(init);
      forall m | 0 <= m < |init| ensures init[m] != x {
        assert init[m] == s[m];
      }
      assert x !in multiset(SortStrings(init));
      InsertSortedSorted(x, SortStrings(init));
    }
  }

  /** The ids of the segments carrying at least one detection, in segment order. */
  function TargetSegments(segs: seq<IslSegment>): (ids: seq<string>)
    ensures |ids| <= |segs|
    ensures ids == [] <==> AllDetections(segs) == []
  {
    if |segs| == 0 then []
    else
      var last := segs[|segs| - 1];
      TargetSegments(segs[..|segs| - 1]) + (if SegmentDetections(last) != [] then [last.id] else [])
  }

  /** `id` names a segment of `segs` that carries a detection. */
  ghost predicate TargetedIn(id: string, segs: seq<IslSegment>) {
    exists j :: 0 <= j < |segs| && segs[j].id == id && SegmentDetections(segs[j]) != []
  }

  /** Exactly the ids of segments with detections are targeted. */
  lemma {:induction false} TargetSegmentsMembers(segs: seq<IslSegment>, id: string)
    ensures id in TargetSegments(segs) <==>
      exists j :: 0 <= j < |segs| && segs[j].id == id && SegmentDetections(segs[j]) != []
  {
    if |segs| > 0 {
      TargetSegmentsMembers(segs[..|segs| - 1], id);
      TargetedInSnoc(segs, id);
    }
  }

  /** A segment list targets `id` when its prefix does or its last segment does. */
  lemma TargetedInSnoc(segs: seq<IslSegment>, id: string)
    requires |segs| > 0
    ensures TargetedIn(id, segs) <==>
      TargetedIn(id, segs[..|segs| - 1])
      || (segs[|segs| - 1].id == id && SegmentDetections(segs[|segs| - 1]) != [])
  {
    var init := segs[..|segs| - 1];
    if TargetedIn(id, init) {
      var j :| 0 <= j < |init| && init[j].id == id && SegmentDetections(init[j]) != [];
      assert segs[j] == init[j];
    }
    if TargetedIn(id, segs) {
      var j :| 0 <= j < |segs| && segs[j].id == id && SegmentDetections(segs[j]) != [];
      if j < |init| {
        assert segs[j] == init[j];
      }
    }
  }

  /** The remediation flag, when it is a boolean. */
  function RemediationEnabled(policy: AgentPolicy): (r: Result<bool, RemediationError>)
    ensures r.Ok? <==> policy.remediation.Some? && policy.remediation.value.enabled.Typed?
    ensures r.Ok? ==> r.value == policy.remediation.value.enabled.value
    ensures r.Err? ==> r.error == RemediationEnabledNotBoolean
  {
    if policy.remediation.None? || policy.remediation.value.enabled.Untyped? then Err(RemediationEnabledNotBoolean)
    else Ok(policy.remediation.value.enabled.value)
  }

  /** The sorted goals of a detection list are strictly increasing and are
      exactly the goals of its detections' types. */
  lemma SortedGoals(ds: seq<PiDetection>)
    ensures StrictlySorted(SortStrings(GoalsOf(ds)))
    ensures forall g :: g in SortStrings(GoalsOf(ds)) <==>
      exists k :: 0 <= k < |ds| && g == PatternTypeToGoal(ds[k].patternType)
  {
    SortStringsSorted(GoalsOf(ds));
    forall g ensures g in SortStrings(GoalsOf(ds)) <==> g in GoalsOf(ds) {
      assert g in SortStrings(GoalsOf(ds)) <==> g in multiset(SortStrings(GoalsOf(ds)));
      assert g in GoalsOf(ds) <==> g in multiset(GoalsOf(ds));
    }
  }

  /** Adding one detection's goal to the set. */
  lemma GoalsOfStep(before: seq<PiDetection>, d: PiDetection)
    ensures var g := PatternTypeToGoal(d.patternType);
      GoalsOf(before + [d]) == if g in GoalsOf(before) then GoalsOf(before) else GoalsOf(before) + [g]
  {
    assert (before + [d])[..|before|] == before;
  }

  /** The inner loop: adds the goal of each of a segment's detections. */
  method AddGoals(goals: seq<string>, ghost before: seq<PiDetection>, ds: seq<PiDetection>) returns (out: seq<string>)
    requires goals == GoalsOf(before)
    ensures out == GoalsOf(before + ds)
  {
    out := goals;
    assert before + ds[..0] == before;
    for j := 0 to |ds|
      invariant out == GoalsOf(before + ds[..j])
    {
      PrefixSnoc(before, ds, j);
      GoalsOfStep(before + ds[..j], ds[j]);
      var goal := PatternTypeToGoal(ds[j].patternType);
      if goal !in out {
        out := out + [goal];
      }
    }
    assert ds[..|ds|] == ds;
  }

  lemma PrefixSnoc(before: seq<PiDetection>, ds: seq<PiDetection>, j: nat)
    requires j < |ds|
    ensures before + ds[..j + 1] == (before + ds[..j]) + [ds[j]]
  {
    assert ds[..j + 1] == ds[..j] + [ds[j]];
  }

  /** One step of the segment loop: the prefix grows by segment `i`. */
  lemma SegmentPrefixStep(segs: seq<IslSegment>, i: nat)
    requires i < |segs|
    ensures AllDetections(segs[..i + 1]) == AllDetections(segs[..i]) + SegmentDetections(segs[i])
    ensures TargetSegments(segs[..i + 1])
      == TargetSegments(segs[..i]) + (if SegmentDetections(segs[i]) != [] then [segs[i].id] else [])
  {
    assert segs[..i + 1][..i] == segs[..i];
  }

  /** `buildRemediationPlan`: the remediation flag is checked first, then the
      thresholds (so bad thresholds throw even with remediation disabled); a
      loop then collects the target segments and the goal set. */
  method BuildRemediationPlan(isl: IslResult, policy: AgentPolicy) returns (r: Result<RemediationPlan, RemediationError>)
    ensures RemediationEnabled(policy).Err? ==> r == Err(RemediationEnabledNotBoolean)
    ensures RemediationEnabled(policy).Ok? && ValidateAgentPolicyThresholds(policy).Fail?
      ==> r == Err(InvalidThresholds(ValidateAgentPolicyThresholds(policy).error))
    ensures r.Ok? <==> RemediationEnabled(policy).Ok? && CoherentThresholds(policy)
    ensures r.Ok? && !RemediationEnabled(policy).value ==> r.value == EMPTY_PLAN
    ensures r.Ok? && RemediationEnabled(policy).value ==>
      var ds := AllDetections(isl.segments);
      r.value == if ds == [] then EMPTY_PLAN
                 else RemediationPlan(STRATEGY_AI_CLEANUP, SortStrings(GoalsOf(ds)), DEFAULT_CONSTRAINTS,
                                      TargetSegments(isl.segments), true)
  {
    var enabled := RemediationEnabled(policy);
    if enabled.Err? {
      return Err(enabled.error);
    }
    var valid := ValidateAgentPolicyThresholds(policy);
    if valid.Fail? {
      return Err(InvalidThresholds(valid.error));
    }
    if !enabled.value {
      return Ok(EMPTY_PLAN);
    }
    var segs := isl.segments;
    var targetSegments: seq<string> := [];
    var goals: seq<string> := [];
    for i := 0 to |segs|
      invariant targetSegments == TargetSegments(segs[..i])
      invariant goals == GoalsOf(AllDetections(segs[..i]))
    {
      SegmentPrefixStep(segs, i);
      var ds := SegmentDetections(segs[i]);
      if |ds| > 0 {
        targetSegments := targetSegments + [segs[i].id];
        goals := AddGoals(goals, AllDetections(segs[..i]), ds);
      } else {
        assert AllDetections(segs[..i]) + ds == AllDetections(segs[..i]);
      }
    }
    assert segs[..|segs|] == segs;
    if |targetSegments| == 0 {
      return Ok(EMPTY_PLAN);
    }
    return Ok(RemediationPlan(STRATEGY_AI_CLEANUP, SortStrings(goals), DEFAULT_CONSTRAINTS, targetSegments, true));
  }
}
