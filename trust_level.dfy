/** How far a segment's content is trusted. */
module TrustLevels {
  import opened Wrappers

  /** Trusted, semi-trusted and untrusted content. */
  datatype TrustLevelType = TC | STC | UC

  datatype TrustLevel = TrustLevel(value: TrustLevelType)

  /** The enum's string value. */
  function TrustName(t: TrustLevelType): string {
    match t
    case TC => "TC"
    case STC => "STC"
    case UC => "UC"
  }

  /** `createTrustLevel`: accepts exactly the three enum values (any other string
      is refused and reported back), and stores the value. */
  function CreateTrustLevel(value: string): (r: Result<TrustLevel, string>)
    ensures r.Ok? <==> value in {"TC", "STC", "UC"}
    ensures r.Ok? ==> TrustName(r.value.value) == value
    ensures r.Err? ==> r.error == value
  {
    if value == "TC" then Ok(TrustLevel(TC))
    else if value == "STC" then Ok(TrustLevel(STC))
    else if value == "UC" then Ok(TrustLevel(UC))
    else Err(value)
  }

  /** Creating a trust level from an enum value gives back that value. */
  lemma CreateTrustLevelRoundTrip(t: TrustLevelType)
    ensures CreateTrustLevel(TrustName(t)) == Ok(TrustLevel(t))
  {
  }

  predicate IsTrusted(trust: TrustLevel) {
    trust.value == TC
  }

  predicate IsSemiTrusted(trust: TrustLevel) {
    trust.value == STC
  }

  predicate IsUntrusted(trust: TrustLevel) {
    trust.value == UC
  }

  /** Exactly one of the three predicates holds of any trust level. */
  lemma ExactlyOneTrustClass(trust: TrustLevel)
    ensures IsTrusted(trust) <==> !IsSemiTrusted(trust) && !IsUntrusted(trust)
    ensures IsSemiTrusted(trust) ==> !IsUntrusted(trust)
  {
  }
}
