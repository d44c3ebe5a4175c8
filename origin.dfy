/** Where a segment's content came from. */
module Origins {
  import opened Wrappers

  /** The deterministic sources of a content segment. */
  datatype OriginType =
    | User | DomVisible | DomHidden | DomAttribute
    | ScriptInjected | NetworkFetched | SystemGenerated | Unknown

  datatype Origin = Origin(kind: OriginType)

  /** Every origin type, in declaration order (`Object.values(OriginType)`). */
  const ALL_ORIGIN_TYPES: seq<OriginType> :=
    [User, DomVisible, DomHidden, DomAttribute, ScriptInjected, NetworkFetched, SystemGenerated, Unknown]

  /** The list really lists every origin type. */
  lemma AllOriginTypesComplete(t: OriginType)
    ensures t in ALL_ORIGIN_TYPES
  {
  }

  /** The enum's string value. */
  function OriginName(t: OriginType): string {
    match t
    case User => "USER"
    case DomVisible => "DOM_VISIBLE"
    case DomHidden => "DOM_HIDDEN"
    case DomAttribute => "DOM_ATTRIBUTE"
    case ScriptInjected => "SCRIPT_INJECTED"
    case NetworkFetched => "NETWORK_FETCHED"
    case SystemGenerated => "SYSTEM_GENERATED"
    case Unknown => "UNKNOWN"
  }

  /** `createOrigin`: accepts exactly the eight enum values; any other string is
      refused and reported back. */
  function CreateOrigin(name: string): (r: Result<Origin, string>)
    ensures r.Ok? ==> OriginName(r.value.kind) == name
    ensures forall t: OriginType :: OriginName(t) == name ==> r == Ok(Origin(t))
    ensures r.Err? ==> r.error == name
  {
    if name == "USER" then Ok(Origin(User))
    else if name == "DOM_VISIBLE" then Ok(Origin(DomVisible))
    else if name == "DOM_HIDDEN" then Ok(Origin(DomHidden))
    else if name == "DOM_ATTRIBUTE" then Ok(Origin(DomAttribute))
    else if name == "SCRIPT_INJECTED" then Ok(Origin(ScriptInjected))
    else if name == "NETWORK_FETCHED" then Ok(Origin(NetworkFetched))
    else if name == "SYSTEM_GENERATED" then Ok(Origin(SystemGenerated))
    else if name == "UNKNOWN" then Ok(Origin(Unknown))
    else Err(name)
  }

  predicate IsDom(o: Origin) {
    o.kind == DomHidden || o.kind == DomVisible || o.kind == DomAttribute
  }

  predicate IsUser(o: Origin) {
    o.kind == User
  }

  predicate IsSystem(o: Origin) {
    o.kind == SystemGenerated
  }

  predicate IsInjected(o: Origin) {
    o.kind == ScriptInjected
  }

  predicate IsUnknown(o: Origin) {
    o.kind == Unknown
  }

  predicate IsNetworkFetched(o: Origin) {
    o.kind == NetworkFetched
  }

  predicate IsExternal(o: Origin) {
    o.kind == NetworkFetched || o.kind == ScriptInjected
  }

  /** External means fetched or injected, and no origin is both DOM and external. */
  lemma ExternalOrigins(o: Origin)
    ensures IsExternal(o) <==> IsNetworkFetched(o) || IsInjected(o)
    ensures !(IsDom(o) && IsExternal(o))
  {
  }
}
