/** `resolveAgentAction`: the three-way threshold rule of the agent layer. */
module ResolveAgentAction {
  import opened Wrappers
  import opened SharedTypes
  import opened AalTypes
  import opened AnomalyScores
  import opened PiDetectionResults
  import opened Signals
  import opened ValidatePolicy

  /** The action for a risk score: BLOCK from the block threshold up, WARN from
      the warn threshold up, ALLOW below; both boundaries are inclusive. */
  function ActionForScore(score: real, warn: real, block: real): (a: AnomalyAction)
    ensures a == Block <==> score >= block
    ensures a == Warn <==> warn <= score < block
    ensures a == Allow <==> score < warn && score < block
  {
    if score >= block then Block
    else if score >= warn then Warn
    else Allow
  }

  /** `resolveAgentAction`; the policy's thresholds are numbers, as its type
      declares. */
  function ResolveAgentAction(signal: IslSignal, policy: AgentPolicy): (a: AnomalyAction)
    requires HasNumericThresholds(policy)
  {
    ActionForScore(signal.riskScore, WarnThreshold(policy), BlockThreshold(policy))
  }

  /** Under a coherent policy the three bands are `[block, ∞)`,
      `[warn, block)` and `(-∞, warn)`. */
  lemma ResolveBands(signal: IslSignal, policy: AgentPolicy)
    requires CoherentThresholds(policy)
    ensures ResolveAgentAction(signal, policy) == Block <==> signal.riskScore >= BlockThreshold(policy)
    ensures ResolveAgentAction(signal, policy) == Warn <==>
      WarnThreshold(policy) <= signal.riskScore < BlockThreshold(policy)
    ensures ResolveAgentAction(signal, policy) == Allow <==> signal.riskScore < WarnThreshold(policy)
  {
  }

  /** A higher score never yields a less severe action. */
  lemma ActionMonotone(s1: real, s2: real, warn: real, block: real)
    requires s1 <= s2
    ensures Severity(ActionForScore(s1, warn, block)) <= Severity(ActionForScore(s2, warn, block))
  {
  }

  /** Thresholds 0.3 and 0.7 map 0.2, 0.3, 0.5, 0.7 and 0.8 to ALLOW, WARN,
      WARN, BLOCK and BLOCK, and agree with the action derived from a
      detection score. */
  lemma DefaultThresholdExamples(score: real)
    ensures ActionForScore(0.2, 0.3, 0.7) == Allow
    ensures ActionForScore(0.3, 0.3, 0.7) == Warn
    ensures ActionForScore(0.5, 0.3, 0.7) == Warn
    ensures ActionForScore(0.7, 0.3, 0.7) == Block
    ensures ActionForScore(0.8, 0.3, 0.7) == Block
    ensures ActionForScore(score, 0.3, 0.7) == DetermineActionFromScore(score)
  {
  }

  /** `resolveAgentActionWithScore`: the signal's score paired with the
      resolved action, through `createAnomalyScore`. */
  function ResolveAgentActionWithScore(signal: IslSignal, policy: AgentPolicy): (r: Result<AnomalyScore, AnomalyScoreError>)
    requires HasNumericThresholds(policy)
    ensures 0.0 <= signal.riskScore <= 1.0 <==> r.Ok?
    ensures r.Ok? ==> r.value == AnomalyScore(signal.riskScore, ResolveAgentAction(signal, policy))
  {
    var action := ResolveAgentAction(signal, policy);
    ActionNameRoundTrip(action);
    CreateAnomalyScore(signal.riskScore, ActionName(action))
  }
}
