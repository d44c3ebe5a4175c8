/** The ISL risk score: a number in [0, 1], its strict constructor, its clamping
    normaliser and the three risk bands. */
module RiskScores {
  import opened Wrappers
  import opened Js

  const MIN_RISK_SCORE: real := 0.0
  const MAX_RISK_SCORE: real := 1.0

  /** Default band thresholds of the band predicates. */
  const DEFAULT_HIGH_THRESHOLD: real := 0.7
  const DEFAULT_LOW_THRESHOLD: real := 0.3

  /** Why `createRiskScore` throws: a `TypeError` for a value that is not a
      finite number, a plain `Error` for one outside the range. */
  datatype RiskScoreError = NotFinite | OutOfRange(value: real)

  predicate InRiskRange(x: real) {
    MIN_RISK_SCORE <= x <= MAX_RISK_SCORE
  }

  /** `createRiskScore`: the value itself when finite and in [0, 1]. */
  function CreateRiskScore(value: JsNum<real>): (r: Result<real, RiskScoreError>)
    ensures value.NonFinite? <==> r == Err(NotFinite)
    ensures r.Ok? <==> value.Finite? && InRiskRange(value.value)
    ensures r.Ok? ==> r.value == value.value
    ensures value.Finite? && !InRiskRange(value.value) ==> r == Err(OutOfRange(value.value))
  {
    match value
    case NonFinite => Err(NotFinite)
    case Finite(v) =>
      if v < MIN_RISK_SCORE || v > MAX_RISK_SCORE then Err(OutOfRange(v)) else Ok(v)
  }

  /** `normalizeRiskScore`: 0 for a non-finite value, otherwise the value
      clamped into [0, 1]. */
  function NormalizeRiskScore(value: JsNum<real>): (r: real)
    ensures InRiskRange(r)
    ensures value.NonFinite? ==> r == MIN_RISK_SCORE
    ensures value.Finite? && InRiskRange(value.value) ==> r == value.value
    ensures value.Finite? && value.value < MIN_RISK_SCORE ==> r == MIN_RISK_SCORE
    ensures value.Finite? && value.value > MAX_RISK_SCORE ==> r == MAX_RISK_SCORE
  {
    match value
    case NonFinite => MIN_RISK_SCORE
    case Finite(v) =>
      var upper := if MAX_RISK_SCORE <= v then MAX_RISK_SCORE else v;
      if MIN_RISK_SCORE >= upper then MIN_RISK_SCORE else upper
  }

  /** Normalising twice is normalising once. */
  lemma NormalizeIdempotent(value: JsNum<real>)
    ensures NormalizeRiskScore(Finite(NormalizeRiskScore(value))) == NormalizeRiskScore(value)
  {
  }

  /** The normaliser agrees with the constructor wherever the constructor
      succeeds, and the constructor accepts everything the normaliser returns. */
  lemma NormalizeAgreesWithCreate(value: JsNum<real>)
    ensures CreateRiskScore(value).Ok? ==> NormalizeRiskScore(value) == CreateRiskScore(value).value
    ensures CreateRiskScore(Finite(NormalizeRiskScore(value))) == Ok(NormalizeRiskScore(value))
  {
  }

  /** `isHighRiskScore`. */
  predicate IsHighRiskScore(score: real, threshold: real) {
    score >= threshold
  }

  /** `isMediumRiskScore`. */
  predicate IsMediumRiskScore(score: real, lowThreshold: real, highThreshold: real) {
    score >= lowThreshold && score < highThreshold
  }

  /** `isLowRiskScore`. */
  predicate IsLowRiskScore(score: real, threshold: real) {
    score < threshold
  }

  /** With ordered thresholds — in particular the defaults 0.3 and 0.7 — every
      score falls in exactly one band. */
  lemma ExactlyOneRiskBand(score: real, low: real, high: real)
    requires low <= high
    ensures IsLowRiskScore(score, low) || IsMediumRiskScore(score, low, high) || IsHighRiskScore(score, high)
    ensures !(IsLowRiskScore(score, low) && IsMediumRiskScore(score, low, high))
    ensures !(IsLowRiskScore(score, low) && IsHighRiskScore(score, high))
    ensures !(IsMediumRiskScore(score, low, high) && IsHighRiskScore(score, high))
  {
  }
}
