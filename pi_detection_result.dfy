/** The aggregate of a list of detections: score, derived action and the
    queries over it. */
module PiDetectionResults {
  import opened Wrappers
  import opened Js
  import opened SharedTypes
  import opened PiDetections

  datatype PiDetectionResult = PiDetectionResult(
    detections: seq<PiDetection>,
    score: real,
    action: AnomalyAction,
    patterns: seq<string>,
    detected: bool)

  /** `Math.max(0, Math.min(1, x))`. */
  function Clamp01(x: real): (r: real)
    ensures 0.0 <= r <= 1.0
    ensures 0.0 <= x <= 1.0 ==> r == x
  {
    Max(0.0, Min(1.0, x))
  }

  /** The product of `1 - c` over the detections' confidences. */
  function ComplementProduct(ds: seq<PiDetection>): real {
    if |ds| == 0 then 1.0
    else ComplementProduct(ds[..|ds| - 1]) * (1.0 - ds[|ds| - 1].confidence)
  }

  /** The aggregated score: 0 for no detections, the sole confidence for one,
      and the clamped complementary probability `1 - Π(1 - cᵢ)` otherwise. */
  function AggregatedScore(ds: seq<PiDetection>): real {
    if |ds| == 0 then 0.0
    else if |ds| == 1 then ds[0].confidence
    else Clamp01(1.0 - ComplementProduct(ds))
  }

  /** `calculateAggregatedScore`: the product is accumulated in a loop. */
  method CalculateAggregatedScore(ds: seq<PiDetection>) returns (score: real)
    ensures score == AggregatedScore(ds)
  {
    if |ds| == 0 {
      return 0.0;
    }
    if |ds| == 1 {
      return ds[0].confidence;
    }
    var complementaryProduct := 1.0;
    for i := 0 to |ds|
      invariant complementaryProduct == ComplementProduct(ds[..i])
    {
      assert ds[..i + 1][..i] == ds[..i];
      complementaryProduct := complementaryProduct * (1.0 - ds[i].confidence);
    }
    assert ds[..|ds|] == ds;
    score := Clamp01(1.0 - complementaryProduct);
  }

  predicate ConfidencesInUnit(ds: seq<PiDetection>) {
    forall i :: 0 <= i < |ds| ==> 0.0 <= ds[i].confidence <= 1.0
  }

  lemma ProductNonNegative(x: real, y: real)
    requires x >= 0.0 && y >= 0.0
    ensures x * y >= 0.0
  {
  }

  /** A product of two numbers in [0, 1] is in [0, 1] and at most either factor. */
  lemma ProductBounds(p: real, f: real)
    requires 0.0 <= p <= 1.0 && 0.0 <= f <= 1.0
    ensures 0.0 <= p * f <= p && p * f <= f
  {
    ProductNonNegative(p, 1.0 - f);
    ProductNonNegative(1.0 - p, f);
    ProductNonNegative(p, f);
    assert p * f == p - p * (1.0 - f);
    assert p * f == f - (1.0 - p) * f;
  }

  /** With confidences in [0, 1] the complementary product stays in [0, 1] and
      is at most every single factor. */
  lemma {:induction false} ComplementProductBounds(ds: seq<PiDetection>)
    requires ConfidencesInUnit(ds)
    ensures 0.0 <= ComplementProduct(ds) <= 1.0
    ensures forall i :: 0 <= i < |ds| ==> ComplementProduct(ds) <= 1.0 - ds[i].confidence
  {
    if |ds| > 0 {
      var init := ds[..|ds| - 1];
      ComplementProductBounds(init);
      var p := ComplementProduct(init);
      var f := 1.0 - ds[|ds| - 1].confidence;
      ProductBounds(p, f);
      assert ComplementProduct(ds) == p * f;
      forall i | 0 <= i < |ds| ensures ComplementProduct(ds) <= 1.0 - ds[i].confidence {
        if i < |ds| - 1 {
          assert ds[i] == init[i];
          assert p <= 1.0 - init[i].confidence;
        } else {
          assert i == |ds| - 1 && ComplementProduct(ds) <= f;
        }
      }
    }
  }

  /** The aggregated score lies in [0, 1] and is at least every confidence. */
  lemma AggregatedScoreBounds(ds: seq<PiDetection>)
    requires ConfidencesInUnit(ds)
    ensures 0.0 <= AggregatedScore(ds) <= 1.0
    ensures forall i :: 0 <= i < |ds| ==> ds[i].confidence <= AggregatedScore(ds)
  {
    ComplementProductBounds(ds);
  }

  /** `determineActionFromScore`. */
  function DetermineActionFromScore(score: real): (a: AnomalyAction)
    ensures a == Block <==> score >= 0.7
    ensures a == Warn <==> 0.3 <= score < 0.7
    ensures a == Allow <==> score < 0.3
  {
    if score >= 0.7 then Block
    else if score >= 0.3 then Warn
    else Allow
  }

  /** Why `createPiDetectionResult` refuses a supplied action. */
  datatype ResultError =
    | InvalidAction(name: string)
    | ActionMismatch(expected: AnomalyAction, provided: AnomalyAction)

  /** What every constructed result satisfies. */
  predicate IsConsistentResult(r: PiDetectionResult) {
    && r.score == AggregatedScore(r.detections)
    && r.action == DetermineActionFromScore(r.score)
    && |r.patterns| == |r.detections|
    && (forall i :: 0 <= i < |r.patterns| ==> r.patterns[i] == r.detections[i].patternType)
    && (r.detected <==> |r.detections| > 0)
  }

  /** The pattern type of every detection, in order, duplicates kept. */
  function PatternTypes(ds: seq<PiDetection>): (r: seq<string>)
    ensures |r| == |ds| && forall i :: 0 <= i < |ds| ==> r[i] == ds[i].patternType
  {
    seq(|ds|, i requires 0 <= i < |ds| => ds[i].patternType)
  }

  /** `createPiDetectionResult`: an optional supplied action must be one of the
      three names and must equal the action derived from the score. */
  function CreatePiDetectionResult(ds: seq<PiDetection>, action: Option<string>)
    : (r: Result<PiDetectionResult, ResultError>)
    ensures r.Ok? <==> action.None? || action.value == ActionName(DetermineActionFromScore(AggregatedScore(ds)))
    ensures action.Some? && ParseAction(action.value).None? ==> r == Err(InvalidAction(action.value))
    ensures r.Ok? ==> IsConsistentResult(r.value) && r.value.detections == ds
  {
    var score := AggregatedScore(ds);
    var expected := DetermineActionFromScore(score);
    match action
    case None => Ok(PiDetectionResult(ds, score, expected, PatternTypes(ds), |ds| > 0))
    case Some(name) =>
      match ParseAction(name)
      case None => Err(InvalidAction(name))
      case Some(a) =>
        if a != expected then Err(ActionMismatch(expected, a))
        else Ok(PiDetectionResult(ds, score, a, PatternTypes(ds), |ds| > 0))
  }

  /** `hasDetections`. */
  predicate HasDetections(r: PiDetectionResult) {
    r.detected
  }

  /** `getDetectionCount`. */
  function DetectionCount(r: PiDetectionResult): nat {
    |r.detections|
  }

  /** For a constructed result, `hasDetections` and the count agree. */
  lemma HasDetectionsIffCount(r: PiDetectionResult)
    requires IsConsistentResult(r)
    ensures HasDetections(r) <==> DetectionCount(r) > 0
  {
  }

  /** `getDetectionsByType`: the detections of one type, in their original order. */
  function DetectionsByType(ds: seq<PiDetection>, patternType: string): (r: seq<PiDetection>)
    ensures forall d :: d in r <==> d in ds && d.patternType == patternType
    ensures |r| <= |ds|
  {
    if |ds| == 0 then []
    else
      var rest := DetectionsByType(ds[..|ds| - 1], patternType);
      var last := ds[|ds| - 1];
      assert ds == ds[..|ds| - 1] + [last];
      if last.patternType == patternType then rest + [last] else rest
  }

  /** Filtering keeps relative order: filtering a concatenation is the
      concatenation of the filtered parts. */
  lemma {:induction false} DetectionsByTypeAppend(a: seq<PiDetection>, b: seq<PiDetection>, patternType: string)
    ensures DetectionsByType(a + b, patternType) == DetectionsByType(a, patternType) + DetectionsByType(b, patternType)
  {
    if |b| > 0 {
      assert (a + b)[..|a + b| - 1] == a + b[..|b| - 1];
      DetectionsByTypeAppend(a, b[..|b| - 1], patternType);
    } else {
      assert a + b == a;
    }
  }

  /** `getHighestConfidenceDetection`: the left-to-right reduction that replaces
      the running maximum only on a strictly greater confidence. */
  function HighestConfidence(ds: seq<PiDetection>): (r: Option<PiDetection>)
    ensures r.None? <==> |ds| == 0
    ensures r.Some? ==> exists i :: 0 <= i < |ds| && ds[i] == r.value
                          && (forall j :: 0 <= j < i ==> ds[j].confidence < r.value.confidence)
    ensures r.Some? ==> forall j :: 0 <= j < |ds| ==> ds[j].confidence <= r.value.confidence
  {
    if |ds| == 0 then None
    else if |ds| == 1 then Some(ds[0])
    else
      var best := HighestConfidence(ds[..|ds| - 1]).value;
      var current := ds[|ds| - 1];
      if current.confidence > best.confidence then Some(current) else Some(best)
  }
}
