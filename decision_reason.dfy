/** `buildDecisionReason`: the threshold and explanation behind a decision. */
module DecisionReasons {
  import opened Wrappers
  import opened SharedTypes
  import opened AalTypes
  import opened Signals

  /** The sentence that explains the decision, kept as the values it prints
      (each number is printed with three decimals). */
  datatype ReasonText =
    | ExceedsBlock(score: real, threshold: real)
    | ExceedsWarnBelowBlock(score: real, threshold: real)
    | BelowWarn(score: real, threshold: real)

  /** The full reason: the sentence, followed by `. <n> threat(s) detected.`
      when the signal carries threats. */
  datatype Reason = Reason(text: ReasonText, threatCount: Option<nat>)

  datatype DecisionReason = DecisionReason(
    action: AnomalyAction,
    riskScore: real,
    threshold: real,
    reason: Reason,
    hasThreats: bool,
    detectionCount: nat)

  /** `buildDecisionReason`; the policy's thresholds are numbers, as its type
      declares. */
  function BuildDecisionReason(action: AnomalyAction, signal: IslSignal, policy: AgentPolicy): (r: DecisionReason)
    requires HasNumericThresholds(policy)
    ensures r.threshold == (if action == Block then BlockThreshold(policy) else WarnThreshold(policy))
    ensures r.action == action && r.riskScore == signal.riskScore && r.hasThreats == signal.hasThreats
    ensures r.detectionCount == |signal.piDetection.detections|
    ensures r.reason.threatCount.Some? <==> signal.hasThreats
    ensures r.reason.threatCount.Some? ==> r.reason.threatCount.value == |signal.piDetection.detections|
    ensures r.reason.text.score == signal.riskScore && r.reason.text.threshold == r.threshold
    ensures r.reason.text.ExceedsBlock? <==> action == Block
    ensures r.reason.text.BelowWarn? <==> action == Allow
  {
    var score := signal.riskScore;
    var (threshold, text) :=
      match action
      case Block => (BlockThreshold(policy), ExceedsBlock(score, BlockThreshold(policy)))
      case Warn => (WarnThreshold(policy), ExceedsWarnBelowBlock(score, WarnThreshold(policy)))
      case Allow => (WarnThreshold(policy), BelowWarn(score, WarnThreshold(policy)));
    var count := |signal.piDetection.detections|;
    DecisionReason(action, score, threshold, Reason(text, if signal.hasThreats then Some(count) else None),
      signal.hasThreats, count)
  }
}
