/** One prompt-injection detection: what matched, where, and how confidently. */
module PiDetections {
  import opened Wrappers
  import opened Js
  import opened SharedTypes

  datatype PiDetection = PiDetection(
    patternType: string,
    matchedPattern: string,
    position: Position,
    confidence: real)

  /** The caller's position argument: missing (not an object), or an object whose
      offsets are finite numbers or not. */
  datatype PositionArg = NoPosition | PositionArg(start: JsNum<int>, end: JsNum<int>)

  /** Which check of `createPiDetection` failed, in the order they run. */
  datatype DetectionError =
    | BlankPatternType
    | EmptyMatchedPattern
    | MissingPosition
    | InvalidStart
    | InvalidEnd
    | EndNotAfterStart
    | NonFiniteConfidence
    | ConfidenceOutOfRange
    | LengthMismatch

  /** What every constructed detection satisfies. */
  predicate IsValidDetection(d: PiDetection) {
    && !IsBlank(d.patternType) && Trim(d.patternType) == d.patternType
    && |d.matchedPattern| > 0
    && 0 <= d.position.start < d.position.end
    && 0.0 <= d.confidence <= 1.0
    && |d.matchedPattern| == d.position.end - d.position.start
  }

  /** `createPiDetection`. */
  function CreatePiDetection(patternType: string, matched: string, position: PositionArg, confidence: JsNum<real>)
    : (r: Result<PiDetection, DetectionError>)
    ensures IsBlank(patternType) ==> r == Err(BlankPatternType)
    ensures r.Ok? <==>
      && !IsBlank(patternType) && |matched| > 0 && position.PositionArg?
      && position.start.Finite? && position.end.Finite?
      && 0 <= position.start.value < position.end.value
      && confidence.Finite? && 0.0 <= confidence.value <= 1.0
      && |matched| == position.end.value - position.start.value
    ensures r.Ok? ==>
      && IsValidDetection(r.value)
      && r.value.patternType == Trim(patternType)
      && r.value.matchedPattern == matched
      && position == PositionArg(Finite(r.value.position.start), Finite(r.value.position.end))
      && confidence == Finite(r.value.confidence)
  {
    if IsBlank(patternType) then Err(BlankPatternType)
    else if |matched| == 0 then Err(EmptyMatchedPattern)
    else if position.NoPosition? then Err(MissingPosition)
    else if position.start.NonFinite? || position.start.value < 0 then Err(InvalidStart)
    else if position.end.NonFinite? || position.end.value < 0 then Err(InvalidEnd)
    else if position.end.value <= position.start.value then Err(EndNotAfterStart)
    else if confidence.NonFinite? then Err(NonFiniteConfidence)
    else if confidence.value < 0.0 || confidence.value > 1.0 then Err(ConfidenceOutOfRange)
    else if |matched| != position.end.value - position.start.value then Err(LengthMismatch)
    else
      TrimIdempotent(patternType);
      Ok(PiDetection(Trim(patternType), matched, Position(position.start.value, position.end.value), confidence.value))
  }

  /** `getDetectionLength`. */
  function DetectionLength(d: PiDetection): int {
    d.position.end - d.position.start
  }

  /** A constructed detection has positive length, equal to its matched text's. */
  lemma DetectionLengthPositive(d: PiDetection)
    requires IsValidDetection(d)
    ensures DetectionLength(d) > 0 && DetectionLength(d) == |d.matchedPattern|
  {
  }

  predicate IsHighConfidence(d: PiDetection) {
    d.confidence >= 0.7
  }

  predicate IsMediumConfidence(d: PiDetection) {
    d.confidence >= 0.3 && d.confidence < 0.7
  }

  predicate IsLowConfidence(d: PiDetection) {
    d.confidence < 0.3
  }

  /** Exactly one confidence band holds for every detection. */
  lemma ExactlyOneConfidenceBand(d: PiDetection)
    ensures IsHighConfidence(d) || IsMediumConfidence(d) || IsLowConfidence(d)
    ensures !(IsHighConfidence(d) && IsMediumConfidence(d))
    ensures !(IsHighConfidence(d) && IsLowConfidence(d))
    ensures !(IsMediumConfidence(d) && IsLowConfidence(d))
  {
  }
}
