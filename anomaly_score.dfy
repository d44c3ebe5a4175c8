/** A risk score in [0, 1] paired with a recommended action. */
module AnomalyScores {
  import opened Wrappers
  import opened SharedTypes

  datatype AnomalyScore = AnomalyScore(score: real, action: AnomalyAction)

  /** Why `createAnomalyScore` refuses its arguments. */
  datatype AnomalyScoreError = ScoreOutOfRange | InvalidAction(name: string)

  /** `createAnomalyScore`: the score must lie in [0, 1] and the action must be
      one of the three names; score and action are not checked against each
      other. */
  function CreateAnomalyScore(score: real, action: string): (r: Result<AnomalyScore, AnomalyScoreError>)
    ensures score < 0.0 || score > 1.0 ==> r == Err(ScoreOutOfRange)
    ensures r.Ok? <==> 0.0 <= score <= 1.0 && action in {"ALLOW", "WARN", "BLOCK"}
    ensures r.Ok? ==> r.value.score == score && ActionName(r.value.action) == action
  {
    if score < 0.0 || score > 1.0 then Err(ScoreOutOfRange)
    else match ParseAction(action)
      case None => Err(InvalidAction(action))
      case Some(a) => Ok(AnomalyScore(score, a))
  }

  /** Any score in range may carry any action: no consistency check is made. */
  lemma AnyPairingAccepted(score: real, a: AnomalyAction)
    requires 0.0 <= score <= 1.0
    ensures CreateAnomalyScore(score, ActionName(a)) == Ok(AnomalyScore(score, a))
  {
    ActionNameRoundTrip(a);
  }

  predicate IsHighRisk(s: AnomalyScore) {
    s.action == Block
  }

  predicate IsWarnRisk(s: AnomalyScore) {
    s.action == Warn
  }

  predicate IsLowRisk(s: AnomalyScore) {
    s.action == Allow
  }

  /** Exactly one of the three risk predicates holds. */
  lemma ExactlyOneRiskClass(s: AnomalyScore)
    ensures (IsHighRisk(s) ==> !IsWarnRisk(s) && !IsLowRisk(s))
    ensures (IsWarnRisk(s) ==> !IsLowRisk(s))
    ensures IsHighRisk(s) || IsWarnRisk(s) || IsLowRisk(s)
  {
  }
}
