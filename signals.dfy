/** The signal the sanitization layer emits for the layers after it. */
module Signals {
  import opened Wrappers
  import opened Js
  import opened PiDetectionResults
  import opened RiskScores

  /** An ISL signal: the four fields of the `ISLSignal` interface. */
  datatype IslSignal = IslSignal(
    riskScore: real,
    piDetection: PiDetectionResult,
    hasThreats: bool,
    timestamp: int)

  /** Which check of `createISLSignal` failed, in the order they run. */
  datatype SignalError = NonFiniteRiskScore | RiskScoreOutOfRange | InvalidTimestamp

  /** `createISLSignal`: the risk score must be a finite number in [0, 1] and
      the timestamp a finite, non-negative number; `hasThreats` is read off the
      detection result. */
  function CreateIslSignal(riskScore: JsNum<real>, piDetection: PiDetectionResult, timestamp: JsNum<int>)
    : (r: Result<IslSignal, SignalError>)
    ensures riskScore.NonFinite? ==> r == Err(NonFiniteRiskScore)
    ensures riskScore.Finite? && !InRiskRange(riskScore.value) ==> r == Err(RiskScoreOutOfRange)
    ensures r.Ok? <==> riskScore.Finite? && InRiskRange(riskScore.value) && timestamp.Finite? && timestamp.value >= 0
    ensures r.Ok? ==>
      && riskScore == Finite(r.value.riskScore)
      && timestamp == Finite(r.value.timestamp)
      && r.value.piDetection == piDetection
      && r.value.hasThreats == piDetection.detected
  {
    if riskScore.NonFinite? then Err(NonFiniteRiskScore)
    else if riskScore.value < 0.0 || riskScore.value > 1.0 then Err(RiskScoreOutOfRange)
    else if timestamp.NonFinite? || timestamp.value < 0 then Err(InvalidTimestamp)
    else Ok(IslSignal(riskScore.value, piDetection, piDetection.detected, timestamp.value))
  }

  /** A timestamp of 0 is accepted. */
  lemma ZeroTimestampAccepted(riskScore: real, piDetection: PiDetectionResult)
    requires 0.0 <= riskScore <= 1.0
    ensures CreateIslSignal(Finite(riskScore), piDetection, Finite(0)).Ok?
  {
  }

  /** `isHighRiskSignal` (default threshold 0.7). */
  predicate IsHighRiskSignal(s: IslSignal, threshold: real) {
    IsHighRiskScore(s.riskScore, threshold)
  }

  /** `isMediumRiskSignal` (default thresholds 0.3 and 0.7). */
  predicate IsMediumRiskSignal(s: IslSignal, lowThreshold: real, highThreshold: real) {
    IsMediumRiskScore(s.riskScore, lowThreshold, highThreshold)
  }

  /** `isLowRiskSignal` (default threshold 0.3). */
  predicate IsLowRiskSignal(s: IslSignal, threshold: real) {
    IsLowRiskScore(s.riskScore, threshold)
  }

  /** With the default thresholds every signal is in exactly one band. */
  lemma ExactlyOneSignalBand(s: IslSignal)
    ensures IsLowRiskSignal(s, DEFAULT_LOW_THRESHOLD) || IsMediumRiskSignal(s, DEFAULT_LOW_THRESHOLD, DEFAULT_HIGH_THRESHOLD)
      || IsHighRiskSignal(s, DEFAULT_HIGH_THRESHOLD)
    ensures !(IsLowRiskSignal(s, DEFAULT_LOW_THRESHOLD) && IsMediumRiskSignal(s, DEFAULT_LOW_THRESHOLD, DEFAULT_HIGH_THRESHOLD))
    ensures !(IsLowRiskSignal(s, DEFAULT_LOW_THRESHOLD) && IsHighRiskSignal(s, DEFAULT_HIGH_THRESHOLD))
    ensures !(IsMediumRiskSignal(s, DEFAULT_LOW_THRESHOLD, DEFAULT_HIGH_THRESHOLD) && IsHighRiskSignal(s, DEFAULT_HIGH_THRESHOLD))
  {
    ExactlyOneRiskBand(s.riskScore, DEFAULT_LOW_THRESHOLD, DEFAULT_HIGH_THRESHOLD);
  }
}
