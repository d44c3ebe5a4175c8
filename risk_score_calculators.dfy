/** The registered risk-score calculators: each turns the detection list into a
    raw score that the caller clamps. */
module RiskScoreCalculators {
  import opened Wrappers
  import opened Js
  import opened PiDetections

  /** The registered strategy names. */
  const MAX_CONFIDENCE: string := "max-confidence"
  const SEVERITY_PLUS_VOLUME: string := "severity-plus-volume"
  const WEIGHTED_BY_TYPE: string := "weighted-by-type"

  /** A registered calculator; the weighted one carries its weight table. */
  datatype Calculator =
    | MaxConfidenceCalculator
    | SeverityPlusVolumeCalculator
    | WeightedByTypeCalculator(weights: map<string, real>)

  /** The calculator's `strategy` tag. */
  function Strategy(c: Calculator): (s: string)
    ensures c.MaxConfidenceCalculator? <==> s == MAX_CONFIDENCE
    ensures c.SeverityPlusVolumeCalculator? <==> s == SEVERITY_PLUS_VOLUME
    ensures c.WeightedByTypeCalculator? <==> s == WEIGHTED_BY_TYPE
  {
    match c
    case MaxConfidenceCalculator => MAX_CONFIDENCE
    case SeverityPlusVolumeCalculator => SEVERITY_PLUS_VOLUME
    case WeightedByTypeCalculator(_) => WEIGHTED_BY_TYPE
  }

  /** `Math.max(...xs)` over a non-empty list. */
  function MaxOf(xs: seq<real>): (m: real)
    requires |xs| > 0
    ensures forall i :: 0 <= i < |xs| ==> xs[i] <= m
    ensures exists i :: 0 <= i < |xs| && xs[i] == m
  {
    if |xs| == 1 then xs[0]
    else
      var rest := MaxOf(xs[..|xs| - 1]);
      var last := xs[|xs| - 1];
      assert forall i :: 0 <= i < |xs| - 1 ==> xs[i] == xs[..|xs| - 1][i];
      if last >= rest then last else rest
  }

  /** The confidence of every detection, in order. */
  function Confidences(ds: seq<PiDetection>): (xs: seq<real>)
    ensures |xs| == |ds| && forall i :: 0 <= i < |ds| ==> xs[i] == ds[i].confidence
  {
    seq(|ds|, i requires 0 <= i < |ds| => ds[i].confidence)
  }

  /** The weight of a pattern type: its entry, or 1 when it has none. */
  function Weight(weights: map<string, real>, patternType: string): real {
    if patternType in weights then weights[patternType] else 1.0
  }

  /** Every detection's confidence times the weight of its type. */
  function WeightedConfidences(ds: seq<PiDetection>, weights: map<string, real>): (xs: seq<real>)
    ensures |xs| == |ds|
    ensures forall i :: 0 <= i < |ds| ==> xs[i] == ds[i].confidence * Weight(weights, ds[i].patternType)
  {
    seq(|ds|, i requires 0 <= i < |ds| => ds[i].confidence * Weight(weights, ds[i].patternType))
  }

  /** `calculate` of each calculator. */
  function Calculate(c: Calculator, ds: seq<PiDetection>): real {
    if |ds| == 0 then 0.0
    else match c
      case MaxConfidenceCalculator => MaxOf(Confidences(ds))
      case SeverityPlusVolumeCalculator => Min(1.0, MaxOf(Confidences(ds)) + 0.1 * (|ds| - 1) as real)
      case WeightedByTypeCalculator(weights) => Min(1.0, MaxOf(WeightedConfidences(ds, weights)))
  }

  /** Every calculator scores an empty list 0. */
  lemma EmptyScoresZero(c: Calculator)
    ensures Calculate(c, []) == 0.0
  {
  }

  /** max-confidence returns a confidence some detection has, and none is larger. */
  lemma MaxConfidenceIsMaximum(ds: seq<PiDetection>)
    requires |ds| > 0
    ensures exists i :: 0 <= i < |ds| && ds[i].confidence == Calculate(MaxConfidenceCalculator, ds)
    ensures forall i :: 0 <= i < |ds| ==> ds[i].confidence <= Calculate(MaxConfidenceCalculator, ds)
  {
    var xs := Confidences(ds);
    var i :| 0 <= i < |xs| && xs[i] == MaxOf(xs);
    assert ds[i].confidence == Calculate(MaxConfidenceCalculator, ds);
  }

  /** severity-plus-volume is capped at 1 and, while the maximum confidence is
      at most 1, never below max-confidence; each extra detection adds 0.1. */
  lemma SeverityBounds(ds: seq<PiDetection>)
    requires |ds| > 0
    ensures Calculate(SeverityPlusVolumeCalculator, ds) <= 1.0
    ensures Calculate(MaxConfidenceCalculator, ds) <= 1.0 ==>
      Calculate(MaxConfidenceCalculator, ds) <= Calculate(SeverityPlusVolumeCalculator, ds)
    ensures Calculate(SeverityPlusVolumeCalculator, ds)
      == Min(1.0, Calculate(MaxConfidenceCalculator, ds) + 0.1 * (|ds| - 1) as real)
  {
  }

  /** weighted-by-type is the largest weighted confidence, capped at 1; a type
      without an entry weighs 1. */
  lemma WeightedIsCappedMaximum(ds: seq<PiDetection>, weights: map<string, real>)
    requires |ds| > 0
    ensures Calculate(WeightedByTypeCalculator(weights), ds) <= 1.0
    ensures forall i :: 0 <= i < |ds| ==>
      Min(1.0, ds[i].confidence * Weight(weights, ds[i].patternType)) <= Calculate(WeightedByTypeCalculator(weights), ds)
    ensures exists i :: (0 <= i < |ds| &&
      Calculate(WeightedByTypeCalculator(weights), ds) == Min(1.0, ds[i].confidence * Weight(weights, ds[i].patternType)))
  {
    var xs := WeightedConfidences(ds, weights);
    var i :| 0 <= i < |xs| && xs[i] == MaxOf(xs);
    assert Calculate(WeightedByTypeCalculator(weights), ds) == Min(1.0, ds[i].confidence * Weight(weights, ds[i].patternType));
  }

  /** `DEFAULT_TYPE_WEIGHTS`: weight 1 for each of the five threat types. */
  const DEFAULT_TYPE_WEIGHTS: map<string, real> := map[
    "prompt-injection" := 1.0,
    "jailbreak" := 1.0,
    "role_hijacking" := 1.0,
    "script_like" := 1.0,
    "hidden_text" := 1.0]

  /** Every type, listed or not, weighs 1 under the default table. */
  lemma DefaultWeightIsOne(patternType: string)
    ensures Weight(DEFAULT_TYPE_WEIGHTS, patternType) == 1.0
  {
  }

  /** With the default weights and confidences of at most 1, weighted-by-type
      scores exactly as max-confidence does. */
  lemma DefaultWeightedEqualsMax(ds: seq<PiDetection>)
    requires forall i :: 0 <= i < |ds| ==> ds[i].confidence <= 1.0
    ensures Calculate(WeightedByTypeCalculator(DEFAULT_TYPE_WEIGHTS), ds) == Calculate(MaxConfidenceCalculator, ds)
  {
    if |ds| > 0 {
      assert WeightedConfidences(ds, DEFAULT_TYPE_WEIGHTS) == Confidences(ds);
      MaxConfidenceIsMaximum(ds);
    }
  }

  /** `getCalculator`: the registered calculator for a strategy name; the
      weighted one takes the supplied weights, or the default table when none
      are supplied; any other name falls back to max-confidence. */
  function GetCalculator(strategy: string, typeWeights: Option<map<string, real>>): (c: Calculator)
    ensures strategy in {MAX_CONFIDENCE, SEVERITY_PLUS_VOLUME, WEIGHTED_BY_TYPE} ==> Strategy(c) == strategy
    ensures strategy !in {SEVERITY_PLUS_VOLUME, WEIGHTED_BY_TYPE} ==> c == MaxConfidenceCalculator
    ensures strategy == WEIGHTED_BY_TYPE && typeWeights.None? ==> c == WeightedByTypeCalculator(DEFAULT_TYPE_WEIGHTS)
    ensures strategy == WEIGHTED_BY_TYPE && typeWeights.Some? ==> c == WeightedByTypeCalculator(typeWeights.value)
  {
    if strategy == MAX_CONFIDENCE then MaxConfidenceCalculator
    else if strategy == SEVERITY_PLUS_VOLUME then SeverityPlusVolumeCalculator
    else if strategy == WEIGHTED_BY_TYPE then
      (match typeWeights
       case None => WeightedByTypeCalculator(DEFAULT_TYPE_WEIGHTS)
       case Some(w) => WeightedByTypeCalculator(w))
    else MaxConfidenceCalculator
  }
}
