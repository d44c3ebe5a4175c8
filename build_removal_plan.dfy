/** The removal plan: which detected instructions the agent layer should cut
    out, built either from the signal alone or from the full ISL result. */
module BuildRemovalPlan {
  import opened Wrappers
  import opened Js
  import opened SharedTypes
  import opened PiDetections
  import opened PiDetectionResults
  import opened AalTypes
  import opened IslTypes
  import opened Signals

  datatype RemovalPlan = RemovalPlan(
    instructionsToRemove: seq<RemovedInstruction>,
    shouldRemove: bool,
    removalEnabled: bool)

  /** Why a builder throws: `policy.removal.enabled` is missing or not a boolean. */
  datatype RemovalError = RemovalEnabledNotBoolean

  const EMPTY_PLAN_DISABLED: RemovalPlan := RemovalPlan([], false, false)
  const EMPTY_PLAN_NO_THREATS: RemovalPlan := RemovalPlan([], false, true)

  /** `mapDetectionToRemovedInstruction`. */
  function ToInstruction(d: PiDetection, segmentId: Option<string>): (i: RemovedInstruction)
    ensures i.kind == d.patternType && i.pattern == d.matchedPattern && i.position == d.position
    ensures i.description == DetectionDescription(d.patternType, d.confidence)
    ensures i.segmentId == segmentId
  {
    RemovedInstruction(d.patternType, d.matchedPattern, d.position, DetectionDescription(d.patternType, d.confidence), segmentId)
  }

  /** `assertPolicyForRemoval`: the removal flag, when it is a boolean. */
  function RemovalEnabled(policy: AgentPolicy): (r: Result<bool, RemovalError>)
    ensures r.Ok? <==> policy.removal.Some? && policy.removal.value.enabled.Typed?
    ensures r.Ok? ==> r.value == policy.removal.value.enabled.value
  {
    if policy.removal.None? || policy.removal.value.enabled.Untyped? then Err(RemovalEnabledNotBoolean)
    else Ok(policy.removal.value.enabled.value)
  }

  /** One instruction per detection, without a segment id. */
  function SignalInstructions(ds: seq<PiDetection>): (r: seq<RemovedInstruction>)
    ensures |r| == |ds|
    ensures forall k :: 0 <= k < |ds| ==> r[k] == ToInstruction(ds[k], None)
  {
    seq(|ds|, k requires 0 <= k < |ds| => ToInstruction(ds[k], None))
  }

  /** `buildRemovalPlan`: from the signal only. */
  function BuildRemovalPlan(signal: IslSignal, policy: AgentPolicy): (r: Result<RemovalPlan, RemovalError>)
    ensures r.Ok? <==> RemovalEnabled(policy).Ok?
    ensures r.Ok? && !RemovalEnabled(policy).value ==> r.value == EMPTY_PLAN_DISABLED
    ensures r.Ok? && RemovalEnabled(policy).value && (!signal.hasThreats || signal.piDetection.detections == [])
      ==> r.value == EMPTY_PLAN_NO_THREATS
    ensures r.Ok? && RemovalEnabled(policy).value ==> r.value.removalEnabled
    ensures r.Ok? ==> (r.value.shouldRemove <==> r.value.instructionsToRemove != [])
    ensures r.Ok? && RemovalEnabled(policy).value && signal.hasThreats
      ==> r.value.instructionsToRemove == SignalInstructions(signal.piDetection.detections)
  {
    match RemovalEnabled(policy)
    case Err(e) => Err(e)
    case Ok(enabled) =>
      if !enabled then Ok(EMPTY_PLAN_DISABLED)
      else if !signal.hasThreats then Ok(EMPTY_PLAN_NO_THREATS)
      else
        var ds := signal.piDetection.detections;
        if |ds| == 0 then Ok(EMPTY_PLAN_NO_THREATS)
        else
          var instructions := SignalInstructions(ds);
          Ok(RemovalPlan(instructions, |instructions| > 0, true))
  }

  /** The instructions for one segment's detections, tagged with its id. */
  function SegmentInstructions(seg: IslSegment): seq<RemovedInstruction>
  {
    var ds := SegmentDetections(seg);
    seq(|ds|, k requires 0 <= k < |ds| => ToInstruction(ds[k], Some(seg.id)))
  }

  /** Instruction `k` of a segment describes its detection `k` and carries
      the segment's id. */
  lemma SegmentInstructionsShape(seg: IslSegment)
    ensures |SegmentInstructions(seg)| == |SegmentDetections(seg)|
    ensures forall k :: 0 <= k < |SegmentInstructions(seg)| ==>
      SegmentInstructions(seg)[k] == ToInstruction(SegmentDetections(seg)[k], Some(seg.id))
  {
  }

  /** The ids of the given segments. */
  function SegmentIds(segs: seq<IslSegment>): (ids: seq<string>)
    ensures |ids| == |segs| && forall j :: 0 <= j < |segs| ==> ids[j] == segs[j].id
  {
    seq(|segs|, j requires 0 <= j < |segs| => segs[j].id)
  }

  /** The instructions of all segments, segment by segment. */
  function ResultInstructions(segs: seq<IslSegment>): seq<RemovedInstruction>
  {
    if |segs| == 0 then []
    else ResultInstructions(segs[..|segs| - 1]) + SegmentInstructions(segs[|segs| - 1])
  }

  /** Instruction `k` describes detection `k` of the flattened detections,
      and carries the id of one of the segments. */
  lemma {:induction false} ResultInstructionsShape(segs: seq<IslSegment>)
    ensures |ResultInstructions(segs)| == |AllDetections(segs)|
    ensures forall k :: 0 <= k < |ResultInstructions(segs)| ==>
      ResultInstructions(segs)[k].(segmentId := None) == ToInstruction(AllDetections(segs)[k], None)
    ensures forall k :: 0 <= k < |ResultInstructions(segs)| ==>
      ResultInstructions(segs)[k].segmentId.Some? && ResultInstructions(segs)[k].segmentId.value in SegmentIds(segs)
  {
    if |segs| > 0 {
      var init := segs[..|segs| - 1];
      var last := segs[|segs| - 1];
      ResultInstructionsShape(init);
      SegmentInstructionsShape(last);
      var rest := ResultInstructions(init);
      var mine := SegmentInstructions(last);
      var r := ResultInstructions(segs);
      var all := AllDetections(segs);
      var ids := SegmentIds(segs);
      assert r == rest + mine;
      assert all == AllDetections(init) + SegmentDetections(last);
      forall k | 0 <= k < |r|
        ensures r[k].(segmentId := None) == ToInstruction(all[k], None)
        ensures r[k].segmentId.Some? && r[k].segmentId.value in ids
      {
        if k < |rest| {
          assert r[k] == rest[k] && all[k] == AllDetections(init)[k];
          var j :| 0 <= j < |init| && rest[k].segmentId.value == SegmentIds(init)[j];
          assert ids[j] == init[j].id;
        } else {
          assert r[k] == mine[k - |rest|] && all[k] == SegmentDetections(last)[k - |rest|];
          assert ids[|segs| - 1] == last.id;
        }
      }
    }
  }

  /** Instructions follow the segments: concatenated segment lists give
      concatenated instruction lists. */
  lemma {:induction false} ResultInstructionsAppend(a: seq<IslSegment>, b: seq<IslSegment>)
    ensures ResultInstructions(a + b) == ResultInstructions(a) + ResultInstructions(b)
  {
    if |b| == 0 {
      assert a + b == a;
    } else {
      var init := b[..|b| - 1];
      ResultInstructionsSnoc(a, b);
      ResultInstructionsAppend(a, init);
      ConcatAssoc(ResultInstructions(a), ResultInstructions(init), SegmentInstructions(b[|b| - 1]));
    }
  }

  /** One unfolding of `ResultInstructions` at the last segment of `b`, alone
      and after `a`. */
  lemma ResultInstructionsSnoc(a: seq<IslSegment>, b: seq<IslSegment>)
    requires |b| > 0
    ensures ResultInstructions(a + b) == ResultInstructions(a + b[..|b| - 1]) + SegmentInstructions(b[|b| - 1])
    ensures ResultInstructions(b) == ResultInstructions(b[..|b| - 1]) + SegmentInstructions(b[|b| - 1])
  {
    assert (a + b)[..|a + b| - 1] == a + b[..|b| - 1];
  }

  lemma ConcatAssoc(x: seq<RemovedInstruction>, y: seq<RemovedInstruction>, z: seq<RemovedInstruction>)
    ensures (x + y) + z == x + (y + z)
  {
  }

  /** `buildRemovalPlanFromResult`: a nested loop over the segments and their
      detections, pushing one instruction per detection. */
  method BuildRemovalPlanFromResult(isl: IslResult, policy: AgentPolicy) returns (r: Result<RemovalPlan, RemovalError>)
    ensures r.Ok? <==> RemovalEnabled(policy).Ok?
    ensures r.Ok? && !RemovalEnabled(policy).value ==> r.value == EMPTY_PLAN_DISABLED
    ensures r.Ok? && RemovalEnabled(policy).value ==>
      var instructions := ResultInstructions(isl.segments);
      r.value == RemovalPlan(instructions, |instructions| > 0, true)
  {
    var enabled := RemovalEnabled(policy);
    if enabled.Err? {
      return Err(enabled.error);
    }
    if !enabled.value {
      return Ok(EMPTY_PLAN_DISABLED);
    }
    var segs := isl.segments;
    var instructions: seq<RemovedInstruction> := [];
    for i := 0 to |segs|
      invariant instructions == ResultInstructions(segs[..i])
    {
      var ds := SegmentDetections(segs[i]);
      SegmentInstructionsShape(segs[i]);
      assert segs[..i + 1][..i] == segs[..i];
      for j := 0 to |ds|
        invariant instructions == ResultInstructions(segs[..i]) + SegmentInstructions(segs[i])[..j]
      {
        assert SegmentInstructions(segs[i])[..j + 1] == SegmentInstructions(segs[i])[..j] + [ToInstruction(ds[j], Some(segs[i].id))];
        instructions := instructions + [ToInstruction(ds[j], Some(segs[i].id))];
      }
      assert SegmentInstructions(segs[i])[..|ds|] == SegmentInstructions(segs[i]);
    }
    assert segs[..|segs|] == segs;
    return Ok(RemovalPlan(instructions, |instructions| > 0, true));
  }
}
