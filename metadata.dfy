/** Envelope metadata: timestamp, nonce, protocol version and optional
    signatures of earlier layers, validated against a clock reading. */
module EnvelopeMetadata {
  import opened Wrappers
  import opened Js
  import opened CpeUtils

  const CURRENT_PROTOCOL_VERSION: string := "0.1.4"

  /** How far ahead of the clock a timestamp may be: five minutes in ms. */
  const MAX_FUTURE_MS: int := 5 * 60 * 1000

  /** Which check of `createMetadata` failed, in the order they run. */
  datatype MetadataError = NonPositiveTimestamp | FutureTimestamp | InvalidVersion

  /** `createMetadata` with the default version passed in, so the envelope
      and the CPE copies share it. `version` is `None` when the argument is
      omitted (the default applies), `Some(Untyped)` when it is not a string.
      `now` is the clock reading `Date.now()`. */
  function CreateMetadataWithDefault(defaultVersion: string, timestamp: int, nonce: string,
                                     version: Option<Typed<string>>,
                                     previousSignatures: Option<PreviousSignatures>,
                                     now: int): (r: Result<SignedMetadata, MetadataError>)
    ensures timestamp <= 0 ==> r == Err(NonPositiveTimestamp)
    ensures 0 < timestamp && timestamp > now + MAX_FUTURE_MS ==> r == Err(FutureTimestamp)
    ensures r.Ok? <==>
      && 0 < timestamp <= now + MAX_FUTURE_MS
      && (version.None? ==> |defaultVersion| > 0)
      && (version.Some? ==> version.value.Typed? && |version.value.value| > 0)
    ensures r.Ok? ==>
      && r.value.timestamp == timestamp && r.value.nonce == nonce
      && r.value.protocolVersion == (if version.Some? then version.value.value else defaultVersion)
      && r.value.previousSignatures == previousSignatures
  {
    var v := if version.None? then Typed(defaultVersion) else version.value;
    if timestamp <= 0 then Err(NonPositiveTimestamp)
    else if timestamp > now + MAX_FUTURE_MS then Err(FutureTimestamp)
    else if v.Untyped? || |v.value| == 0 then Err(InvalidVersion)
    else Ok(SignedMetadata(timestamp, nonce, v.value, previousSignatures))
  }

  /** `createMetadata` of the envelope, defaulting to version "0.1.4". */
  function CreateMetadata(timestamp: int, nonce: string, version: Option<Typed<string>>,
                          previousSignatures: Option<PreviousSignatures>, now: int): (r: Result<SignedMetadata, MetadataError>)
    ensures r.Ok? <==>
      && 0 < timestamp <= now + MAX_FUTURE_MS
      && (version.Some? ==> version.value.Typed? && |version.value.value| > 0)
    ensures r.Err? && version.Some? && version.value.Typed? && version.value.value == "" && 0 < timestamp <= now + MAX_FUTURE_MS
      ==> r.error == InvalidVersion
    ensures r.Ok? && version.None? ==> r.value.protocolVersion == "0.1.4"
  {
    CreateMetadataWithDefault(CURRENT_PROTOCOL_VERSION, timestamp, nonce, version, previousSignatures, now)
  }

  /** `isValidMetadata`: positive timestamp, a nonce of at least 16
      characters and a non-empty version. */
  predicate IsValidMetadata(m: SignedMetadata) {
    m.timestamp > 0 && |m.nonce| >= 16 && |m.protocolVersion| > 0
  }

  /** Created metadata is valid exactly when its nonce has at least 16
      characters: creation already checks the timestamp and the version. */
  lemma CreatedValidIffLongNonce(defaultVersion: string, timestamp: int, nonce: string,
                                 version: Option<Typed<string>>,
                                 previousSignatures: Option<PreviousSignatures>, now: int)
    requires CreateMetadataWithDefault(defaultVersion, timestamp, nonce, version, previousSignatures, now).Ok?
    ensures IsValidMetadata(CreateMetadataWithDefault(defaultVersion, timestamp, nonce, version, previousSignatures, now).value)
      <==> |nonce| >= 16
  {
  }

  /** A timestamp at the edge of the future window is accepted, one past it
      is not. */
  lemma FutureWindowEdge(nonce: string, now: int)
    requires now + MAX_FUTURE_MS > 0
    ensures CreateMetadata(now + 300000, nonce, None, None, now).Ok?
    ensures CreateMetadata(now + 300001, nonce, None, None, now) == Err(FutureTimestamp)
  {
  }
}

/** The CPE copy of the metadata value object: the same checks, with version
    "1.0.0" as the default. */
module CpeMetadata {
  import opened Wrappers
  import opened Js
  import opened CpeUtils
  import EnvelopeMetadata

  const CURRENT_PROTOCOL_VERSION: string := "1.0.0"

  /** `createMetadata` of the CPE, defaulting to version "1.0.0". */
  function CreateMetadata(timestamp: int, nonce: string, version: Option<Typed<string>>,
                          previousSignatures: Option<PreviousSignatures>, now: int)
    : (r: Result<SignedMetadata, EnvelopeMetadata.MetadataError>)
    ensures r.Ok? <==>
      && 0 < timestamp <= now + EnvelopeMetadata.MAX_FUTURE_MS
      && (version.Some? ==> version.value.Typed? && |version.value.value| > 0)
    ensures r.Ok? && version.None? ==> r.value.protocolVersion == "1.0.0"
  {
    EnvelopeMetadata.CreateMetadataWithDefault(CURRENT_PROTOCOL_VERSION, timestamp, nonce, version, previousSignatures, now)
  }

  /** The two copies agree on everything but the default version. */
  lemma AgreesWithEnvelope(timestamp: int, nonce: string, version: Option<Typed<string>>,
                           previousSignatures: Option<PreviousSignatures>, now: int)
    ensures CreateMetadata(timestamp, nonce, version, previousSignatures, now).Ok?
      == EnvelopeMetadata.CreateMetadata(timestamp, nonce, version, previousSignatures, now).Ok?
    ensures version.Some? ==>
      CreateMetadata(timestamp, nonce, version, previousSignatures, now)
        == EnvelopeMetadata.CreateMetadata(timestamp, nonce, version, previousSignatures, now)
  {
  }
}
