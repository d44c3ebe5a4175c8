/** `emitSignal`: turns an internal ISL result into the external signal. */
module EmitSignal {
  import opened Wrappers
  import opened Js
  import opened PiDetections
  import opened PiDetectionResults
  import opened RiskScores
  import opened RiskScoreCalculators
  import opened IslTypes
  import opened Signals

  /** `options.riskScore`: the strategy and optional type weights. */
  datatype RiskScoreOptions = RiskScoreOptions(strategy: string, typeWeights: Option<map<string, real>>)

  /** `EmitSignalOptions`. */
  datatype EmitSignalOptions = EmitSignalOptions(timestamp: Option<int>, riskScore: Option<RiskScoreOptions>)

  /** The second argument: an options object, or a bare number taken as the timestamp. */
  datatype EmitArgument = Options(options: EmitSignalOptions) | TimestampArgument(timestamp: int)

  const DEFAULT_STRATEGY: string := MAX_CONFIDENCE

  /** The options a bare timestamp stands for. */
  function NormalizeOptions(arg: EmitArgument): (o: EmitSignalOptions)
    ensures arg.TimestampArgument? ==> o == EmitSignalOptions(Some(arg.timestamp), None)
    ensures arg.Options? ==> o == arg.options
  {
    match arg
    case Options(o) => o
    case TimestampArgument(t) => EmitSignalOptions(Some(t), None)
  }

  /** The strategy in force: the requested one, or max-confidence. */
  function ChosenStrategy(o: EmitSignalOptions): string {
    if o.riskScore.Some? then o.riskScore.value.strategy else DEFAULT_STRATEGY
  }

  function ChosenWeights(o: EmitSignalOptions): Option<map<string, real>> {
    if o.riskScore.Some? then o.riskScore.value.typeWeights else None
  }

  /** The risk score: 0 without detections, else the chosen calculator's raw
      score normalised into [0, 1]. */
  function SignalRiskScore(ds: seq<PiDetection>, strategy: string, weights: Option<map<string, real>>): (r: real)
    ensures InRiskRange(r)
    ensures |ds| == 0 ==> r == MIN_RISK_SCORE
  {
    if |ds| == 0 then MIN_RISK_SCORE
    else NormalizeRiskScore(Finite(Calculate(GetCalculator(strategy, weights), ds)))
  }

  /** `emitSignal`, with `Date.now()` passed in as `now`. It fails only where
      `createISLSignal` rejects a negative timestamp. The strategy is scored
      with but, as the code stands, not recorded: the `{ strategy }` metadata
      is passed as a fourth argument that `createISLSignal` does not take. */
  function EmitSignal(isl: IslResult, arg: EmitArgument, now: int): (r: Result<IslSignal, SignalError>)
    ensures var o := NormalizeOptions(arg);
      var ts := o.timestamp.GetOr(now);
      var ds := AllDetections(isl.segments);
      && (r.Ok? <==> ts >= 0)
      && (r.Err? ==> r.error == InvalidTimestamp)
      && (r.Ok? ==>
        && r.value.timestamp == ts
        && r.value.piDetection == CreatePiDetectionResult(ds, None).value
        && r.value.piDetection.detections == ds
        && (r.value.hasThreats <==> |ds| > 0)
        && r.value.riskScore == SignalRiskScore(ds, ChosenStrategy(o), ChosenWeights(o)))
  {
    var o := NormalizeOptions(arg);
    var ts := o.timestamp.GetOr(now);
    var ds := AllDetections(isl.segments);
    var pi := CreatePiDetectionResult(ds, None).value;
    CreateIslSignal(Finite(SignalRiskScore(ds, ChosenStrategy(o), ChosenWeights(o))), pi, Finite(ts))
  }

  /** A result with no detections in any segment yields risk 0 and no threats,
      whatever strategy was requested. */
  lemma NoDetectionsNoRisk(isl: IslResult, arg: EmitArgument, now: int)
    requires forall j :: 0 <= j < |isl.segments| ==> SegmentDetections(isl.segments[j]) == []
    requires EmitSignal(isl, arg, now).Ok?
    ensures EmitSignal(isl, arg, now).value.riskScore == 0.0
    ensures !EmitSignal(isl, arg, now).value.hasThreats
  {
    var ds := AllDetections(isl.segments);
    if |ds| > 0 {
      AllDetectionsMembers(isl.segments, ds[0]);
    }
  }

  /** Without a strategy option the signal is scored by maximum confidence:
      the largest confidence clamped into [0, 1]. */
  lemma DefaultStrategyIsMaxConfidence(isl: IslResult, now: int)
    requires now >= 0
    requires AllDetections(isl.segments) != []
    ensures EmitSignal(isl, Options(EmitSignalOptions(None, None)), now).value.riskScore
      == NormalizeRiskScore(Finite(Calculate(MaxConfidenceCalculator, AllDetections(isl.segments))))
  {
  }

  /** A bare number is the timestamp, with the default strategy. */
  lemma NumericArgumentIsTimestamp(isl: IslResult, t: int, now: int)
    ensures EmitSignal(isl, TimestampArgument(t), now) == EmitSignal(isl, Options(EmitSignalOptions(Some(t), None)), now)
  {
  }

  /** As the code stands the signal does not say which strategy scored it:
      without detections, a signal scored by severity-plus-volume is the very
      signal scored by max-confidence. */
  lemma StrategyNotRecorded(isl: IslResult, t: int)
    requires t >= 0
    requires AllDetections(isl.segments) == []
    ensures EmitSignal(isl, Options(EmitSignalOptions(Some(t), Some(RiskScoreOptions(SEVERITY_PLUS_VOLUME, None)))), t)
         == EmitSignal(isl, Options(EmitSignalOptions(Some(t), None)), t)
  {
  }

  /** The `metadata` the emitter builds. */
  datatype SignalMetadata = SignalMetadata(strategy: string)

  /** A signal together with the metadata its documentation promises. */
  datatype RecordedSignal = RecordedSignal(signal: IslSignal, metadata: SignalMetadata)

  /** `emitSignal` as documented: the same signal, with `metadata.strategy`
      the strategy actually used. */
  function EmitRecordedSignal(isl: IslResult, arg: EmitArgument, now: int): (r: Result<RecordedSignal, SignalError>)
    ensures var o := NormalizeOptions(arg);
      && (r.Ok? <==> EmitSignal(isl, arg, now).Ok?)
      && (r.Err? ==> r.error == InvalidTimestamp)
      && (r.Ok? ==>
        && r.value.signal == EmitSignal(isl, arg, now).value
        && r.value.metadata.strategy == ChosenStrategy(o)
        && (o.riskScore.None? ==> r.value.metadata.strategy == MAX_CONFIDENCE))
  {
    var signal := EmitSignal(isl, arg, now);
    if signal.Err? then Err(signal.error)
    else Ok(RecordedSignal(signal.value, SignalMetadata(ChosenStrategy(NormalizeOptions(arg)))))
  }

  /** Unlike the signal alone, the recorded signal tells the two strategies
      apart. */
  lemma RecordedStrategyDistinguishes(isl: IslResult, t: int)
    requires t >= 0
    ensures EmitRecordedSignal(isl, Options(EmitSignalOptions(Some(t), Some(RiskScoreOptions(SEVERITY_PLUS_VOLUME, None)))), t)
         != EmitRecordedSignal(isl, Options(EmitSignalOptions(Some(t), None)), t)
  {
    assert MAX_CONFIDENCE[0] == 'm' && SEVERITY_PLUS_VOLUME[0] == 's';
  }
}
