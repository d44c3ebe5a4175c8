/** Deterministic trust classification of a content source or origin. */
module Classify {
  import opened Wrappers
  import opened TrustLevels
  import opened Origins
  import opened OriginMap

  /** Why classification fails: the source has no origin, the origin has no
      table entry, or the trust level could not be created. */
  datatype ClassificationError =
    | UnclassifiableSource(source: string)
    | UnmappedOrigin(origin: OriginType)
    | InvalidTrustLevel(value: string)

  /** The fixed source-to-origin table of `classifySource`. */
  function SourceOrigin(source: string): (r: Option<OriginType>)
    ensures r.Some? <==> source in {"SYSTEM", "UI", "API", "DOM"}
  {
    if source == "SYSTEM" then Some(SystemGenerated)
    else if source == "UI" then Some(DomVisible)
    else if source == "API" then Some(DomAttribute)
    else if source == "DOM" then Some(DomHidden)
    else None
  }

  /** Looks the origin type up in the trust table and builds the trust level. */
  function TrustOfOriginType(t: OriginType): Result<TrustLevel, ClassificationError>
  {
    if t !in ORIGIN_MAP then Err(UnmappedOrigin(t))
    else match CreateTrustLevel(TrustName(ORIGIN_MAP[t]))
      case Ok(level) => Ok(level)
      case Err(v) => Err(InvalidTrustLevel(v))
  }

  /** `classifySource`: the trust level of one of the four sources. */
  function ClassifySource(source: string): (r: Result<TrustLevel, ClassificationError>)
    ensures r.Err? <==> source !in {"SYSTEM", "UI", "API", "DOM"}
    ensures r.Err? ==> r.error == UnclassifiableSource(source)
    ensures source == "SYSTEM" ==> r == Ok(TrustLevel(TC))
    ensures source == "UI" || source == "API" ==> r == Ok(TrustLevel(STC))
    ensures source == "DOM" ==> r == Ok(TrustLevel(UC))
  {
    match SourceOrigin(source)
    case None => Err(UnclassifiableSource(source))
    case Some(t) =>
      OriginMapTrust(t);
      CreateTrustLevelRoundTrip(ORIGIN_MAP[t]);
      TrustOfOriginType(t)
  }

  /** `classifyOrigin`: the table entry for the origin's type; never fails,
      because the table is complete. */
  function ClassifyOrigin(o: Origin): (r: Result<TrustLevel, ClassificationError>)
    ensures o.kind in ORIGIN_MAP && r.Ok? && r.value.value == ORIGIN_MAP[o.kind]
  {
    OriginMapTrust(o.kind);
    CreateTrustLevelRoundTrip(ORIGIN_MAP[o.kind]);
    TrustOfOriginType(o.kind)
  }

  /** Classifying a source agrees with classifying the origin it stands for. */
  lemma SourceAgreesWithOrigin(source: string)
    requires SourceOrigin(source).Some?
    ensures ClassifySource(source) == ClassifyOrigin(Origin(SourceOrigin(source).value))
  {
  }
}
