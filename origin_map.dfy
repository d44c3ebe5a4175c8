/** The fixed classification table from origin to trust level. */
module OriginMap {
  import opened Wrappers
  import opened TrustLevels
  import opened Origins

  /** `originMap`. */
  const ORIGIN_MAP: map<OriginType, TrustLevelType> := map[
    User := UC,
    DomVisible := STC,
    DomHidden := UC,
    DomAttribute := STC,
    ScriptInjected := UC,
    NetworkFetched := UC,
    SystemGenerated := TC,
    Unknown := UC
  ]

  /** The origin types a table has no entry for, in enum order. */
  function MissingOriginTypes(m: map<OriginType, TrustLevelType>, types: seq<OriginType>): (r: seq<OriginType>)
    ensures forall t :: t in r <==> t in types && t !in m
  {
    if |types| == 0 then []
    else
      var last := types[|types| - 1];
      MissingOriginTypes(m, types[..|types| - 1]) + (if last in m then [] else [last])
  }

  /** `validateOriginMap`: fails, listing the missing types, unless every origin
      type has an entry. */
  function ValidateOriginMap(m: map<OriginType, TrustLevelType>): (r: Outcome<seq<OriginType>>)
    ensures r.Pass? <==> forall t: OriginType :: t in m
    ensures r.Fail? ==> |r.error| > 0 && forall t :: t in r.error ==> t !in m
  {
    var missing := MissingOriginTypes(m, ALL_ORIGIN_TYPES);
    if |missing| > 0 then
      assert missing[0] in missing;
      Fail(missing)
    else
      assert forall t: OriginType :: t in ALL_ORIGIN_TYPES by {
        forall t: OriginType ensures t in ALL_ORIGIN_TYPES { AllOriginTypesComplete(t); }
      }
      Pass
  }

  /** The shipped table is complete, so validation passes. */
  lemma OriginMapIsComplete()
    ensures ValidateOriginMap(ORIGIN_MAP) == Pass
  {
    forall t: OriginType ensures t in ORIGIN_MAP {
      OriginMapTrust(t);
    }
  }

  /** Only system-generated content is trusted; visible DOM content and DOM
      attributes are semi-trusted; everything else is untrusted. */
  lemma OriginMapTrust(t: OriginType)
    ensures t in ORIGIN_MAP
    ensures ORIGIN_MAP[t] == TC <==> t == SystemGenerated
    ensures ORIGIN_MAP[t] == STC <==> t == DomVisible || t == DomAttribute
    ensures ORIGIN_MAP[t] == UC <==> t in {User, DomHidden, ScriptInjected, NetworkFetched, Unknown}
  {
  }
}
