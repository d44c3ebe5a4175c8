/** `validateAgentPolicyThresholds`: a coherent policy has
    `0 <= warn < block <= 1`. */
module ValidatePolicy {
  import opened Wrappers
  import opened Js
  import opened AalTypes

  /** Which check failed, in the order they run. The first two are thrown as a
      `TypeError`, the others as a `RangeError`. */
  datatype PolicyError =
    | MissingThresholds
    | ThresholdsNotNumbers
    | WarnOutOfRange(warn: real)
    | BlockOutOfRange(block: real)
    | WarnNotBelowBlock(warn: real, block: real)

  predicate IsRangeError(e: PolicyError) {
    e.WarnOutOfRange? || e.BlockOutOfRange? || e.WarnNotBelowBlock?
  }

  /** The thresholds are numbers with `0 <= warn < block <= 1`. */
  predicate CoherentThresholds(p: AgentPolicy) {
    HasNumericThresholds(p) && 0.0 <= WarnThreshold(p) < BlockThreshold(p) <= 1.0
  }

  function ValidateAgentPolicyThresholds(p: AgentPolicy): (r: Outcome<PolicyError>)
    ensures r.Pass? <==> CoherentThresholds(p)
    ensures r.Fail? && !IsRangeError(r.error) <==> !HasNumericThresholds(p)
    ensures p.thresholds.None? ==> r == Fail(MissingThresholds)
    ensures HasNumericThresholds(p) ==>
      var warn := WarnThreshold(p);
      var block := BlockThreshold(p);
      && (!(0.0 <= warn <= 1.0) ==> r == Fail(WarnOutOfRange(warn)))
      && (0.0 <= warn <= 1.0 && !(0.0 <= block <= 1.0) ==> r == Fail(BlockOutOfRange(block)))
      && (0.0 <= warn <= 1.0 && 0.0 <= block <= 1.0 && warn >= block ==> r == Fail(WarnNotBelowBlock(warn, block)))
  {
    match p.thresholds
    case None => Fail(MissingThresholds)
    case Some(t) =>
      if t.warn.Untyped? || t.block.Untyped? then Fail(ThresholdsNotNumbers)
      else
        var warn := t.warn.value;
        var block := t.block.value;
        if warn < 0.0 || warn > 1.0 then Fail(WarnOutOfRange(warn))
        else if block < 0.0 || block > 1.0 then Fail(BlockOutOfRange(block))
        else if warn >= block then Fail(WarnNotBelowBlock(warn, block))
        else Pass
  }

  /** Equal thresholds are rejected. */
  lemma EqualThresholdsRejected(x: real)
    ensures ValidateAgentPolicyThresholds(AgentPolicy(Some(Thresholds(Typed(x), Typed(x))), None, None)).Fail?
  {
  }

  /** A JavaScript number as the range checks see it: every `typeof` number,
      `NaN` and the infinities included. */
  datatype JsNumber = Num(v: real) | NaN | PositiveInfinity | NegativeInfinity

  /** `a < b` on JavaScript numbers: false whenever either side is `NaN`. */
  predicate JsLess(a: JsNumber, b: JsNumber) {
    match (a, b)
    case (NaN, _) => false
    case (_, NaN) => false
    case (Num(x), Num(y)) => x < y
    case (NegativeInfinity, y) => y != NegativeInfinity
    case (x, PositiveInfinity) => x != PositiveInfinity
    case (_, _) => false
  }

  /** `a >= b` on JavaScript numbers: false whenever either side is `NaN`. */
  predicate JsAtLeast(a: JsNumber, b: JsNumber) {
    a != NaN && b != NaN && !JsLess(a, b)
  }

  /** A number inside [0, 1]; never `NaN`. */
  predicate InUnitRange(x: JsNumber) {
    x.Num? && 0.0 <= x.v <= 1.0
  }

  datatype ThresholdError = WarnNotInRange | BlockNotInRange | NotWarnBelowBlock

  /** The three range checks of `validateAgentPolicyThresholds` as written:
      `warn < 0 || warn > 1`, `block < 0 || block > 1`, `warn >= block`. Every
      comparison with `NaN` is false, so a `NaN` threshold passes them all. */
  function CheckThresholdsAsWritten(warn: JsNumber, block: JsNumber): (r: Outcome<ThresholdError>)
    ensures r.Pass? <==>
      && (warn == NaN || InUnitRange(warn))
      && (block == NaN || InUnitRange(block))
      && (warn.Num? && block.Num? ==> warn.v < block.v)
  {
    if JsLess(warn, Num(0.0)) || JsLess(Num(1.0), warn) then Fail(WarnNotInRange)
    else if JsLess(block, Num(0.0)) || JsLess(Num(1.0), block) then Fail(BlockNotInRange)
    else if JsAtLeast(warn, block) then Fail(NotWarnBelowBlock)
    else Pass
  }

  /** `NaN` thresholds pass the checks as written although they are not in
      [0, 1]. */
  lemma NaNThresholdsPass()
    ensures CheckThresholdsAsWritten(NaN, NaN).Pass?
    ensures CheckThresholdsAsWritten(NaN, Num(0.5)).Pass?
    ensures !InUnitRange(NaN)
  {
  }

  /** The checks as evidently intended, written `!(0 <= x && x <= 1)` and
      `!(warn < block)`, which `NaN` fails. */
  function CheckThresholds(warn: JsNumber, block: JsNumber): (r: Outcome<ThresholdError>)
    ensures r.Pass? <==> InUnitRange(warn) && InUnitRange(block) && warn.v < block.v
    ensures warn == NaN ==> r == Fail(WarnNotInRange)
  {
    if !(JsAtLeast(warn, Num(0.0)) && JsAtLeast(Num(1.0), warn)) then Fail(WarnNotInRange)
    else if !(JsAtLeast(block, Num(0.0)) && JsAtLeast(Num(1.0), block)) then Fail(BlockNotInRange)
    else if !JsLess(warn, block) then Fail(NotWarnBelowBlock)
    else Pass
  }

  /** On finite numbers the two checks agree with each other and with
      `ValidateAgentPolicyThresholds`, which the rest of the model uses. */
  lemma ChecksAgreeOnNumbers(warn: real, block: real)
    ensures var p := AgentPolicy(Some(Thresholds(Typed(warn), Typed(block))), None, None);
      && (CheckThresholds(Num(warn), Num(block)).Pass? <==> ValidateAgentPolicyThresholds(p).Pass?)
      && (CheckThresholdsAsWritten(Num(warn), Num(block)).Pass? <==> ValidateAgentPolicyThresholds(p).Pass?)
  {
  }
}
