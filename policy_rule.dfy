/** The sanitization policy: blocked intents, sensitive scopes, protected
    roles, immutable instructions and the context-leak flags. */
module PolicyRules {
  import opened Wrappers
  import opened Js

  datatype RoleProtectionConfig = RoleProtectionConfig(protectedRoles: seq<string>, immutableInstructions: seq<string>)

  datatype ContextLeakPreventionConfig = ContextLeakPreventionConfig(
    enabled: bool, blockMetadataExposure: bool, sanitizeInternalReferences: bool)

  datatype PolicyRule = PolicyRule(
    version: string,
    blockedIntents: seq<string>,
    sensitiveScope: seq<string>,
    roleProtection: RoleProtectionConfig,
    contextLeakPrevention: ContextLeakPreventionConfig)

  /** The `roleProtection` argument as received: either list may be a
      non-array (`Untyped`). */
  datatype RoleProtectionArg = RoleProtectionArg(protectedRoles: Typed<seq<string>>, immutableInstructions: Typed<seq<string>>)

  /** The `contextLeakPrevention` argument as received: any flag may be a
      non-boolean (`Untyped`). */
  datatype ContextLeakPreventionArg = ContextLeakPreventionArg(
    enabled: Typed<bool>, blockMetadataExposure: Typed<bool>, sanitizeInternalReferences: Typed<bool>)

  /** Which check of `createPolicyRule` failed, in the order they run. */
  datatype PolicyRuleError =
    | BlankVersion
    | BlockedIntentsNotArray
    | SensitiveScopeNotArray
    | RoleProtectionNotObject
    | ProtectedRolesNotArray
    | ImmutableInstructionsNotArray
    | ContextLeakPreventionNotObject
    | EnabledNotBoolean
    | BlockMetadataExposureNotBoolean
    | SanitizeInternalReferencesNotBoolean

  /** All three flags are booleans. */
  predicate FlagsTyped(c: ContextLeakPreventionArg) {
    c.enabled.Typed? && c.blockMetadataExposure.Typed? && c.sanitizeInternalReferences.Typed?
  }

  /** `createPolicyRule`. Any argument of the wrong JavaScript type is
      `Untyped`; the lists are copied and the version is stored trimmed. */
  function CreatePolicyRule(version: Typed<string>, blockedIntents: Typed<seq<string>>,
                            sensitiveScope: Typed<seq<string>>, roleProtection: Typed<RoleProtectionArg>,
                            contextLeakPrevention: Typed<ContextLeakPreventionArg>): (r: Result<PolicyRule, PolicyRuleError>)
    ensures version.Untyped? || IsBlank(version.value) ==> r == Err(BlankVersion)
    ensures r.Ok? <==>
      && version.Typed? && !IsBlank(version.value)
      && blockedIntents.Typed? && sensitiveScope.Typed?
      && roleProtection.Typed? && roleProtection.value.protectedRoles.Typed?
      && roleProtection.value.immutableInstructions.Typed?
      && contextLeakPrevention.Typed? && FlagsTyped(contextLeakPrevention.value)
    ensures r.Ok? ==>
      && r.value.version == Trim(version.value) && !IsBlank(r.value.version)
      && r.value.blockedIntents == blockedIntents.value
      && r.value.sensitiveScope == sensitiveScope.value
      && r.value.roleProtection.protectedRoles == roleProtection.value.protectedRoles.value
      && r.value.roleProtection.immutableInstructions == roleProtection.value.immutableInstructions.value
      && r.value.contextLeakPrevention.enabled == contextLeakPrevention.value.enabled.value
      && r.value.contextLeakPrevention.blockMetadataExposure == contextLeakPrevention.value.blockMetadataExposure.value
      && r.value.contextLeakPrevention.sanitizeInternalReferences == contextLeakPrevention.value.sanitizeInternalReferences.value
  {
    if version.Untyped? || IsBlank(version.value) then Err(BlankVersion)
    else if blockedIntents.Untyped? then Err(BlockedIntentsNotArray)
    else if sensitiveScope.Untyped? then Err(SensitiveScopeNotArray)
    else if roleProtection.Untyped? then Err(RoleProtectionNotObject)
    else if roleProtection.value.protectedRoles.Untyped? then Err(ProtectedRolesNotArray)
    else if roleProtection.value.immutableInstructions.Untyped? then Err(ImmutableInstructionsNotArray)
    else if contextLeakPrevention.Untyped? then Err(ContextLeakPreventionNotObject)
    else if contextLeakPrevention.value.enabled.Untyped? then Err(EnabledNotBoolean)
    else if contextLeakPrevention.value.blockMetadataExposure.Untyped? then Err(BlockMetadataExposureNotBoolean)
    else if contextLeakPrevention.value.sanitizeInternalReferences.Untyped? then Err(SanitizeInternalReferencesNotBoolean)
    else
      TrimShape(version.value);
      TrimIdempotent(version.value);
      var roles := roleProtection.value;
      var leak := contextLeakPrevention.value;
      Ok(PolicyRule(
        Trim(version.value),
        blockedIntents.value,
        sensitiveScope.value,
        RoleProtectionConfig(roles.protectedRoles.value, roles.immutableInstructions.value),
        ContextLeakPreventionConfig(leak.enabled.value, leak.blockMetadataExposure.value, leak.sanitizeInternalReferences.value)))
  }

  /** `isIntentBlocked`: exact membership. */
  predicate IsIntentBlocked(policy: PolicyRule, intent: string) {
    intent in policy.blockedIntents
  }

  /** `isScopeSensitive`: exact membership. */
  predicate IsScopeSensitive(policy: PolicyRule, scope: string) {
    scope in policy.sensitiveScope
  }

  /** `isRoleProtected`: exact membership. */
  predicate IsRoleProtected(policy: PolicyRule, role: string) {
    role in policy.roleProtection.protectedRoles
  }

  /** `isInstructionImmutable`: exact membership. */
  predicate IsInstructionImmutable(policy: PolicyRule, instruction: string) {
    instruction in policy.roleProtection.immutableInstructions
  }

  /** `isContextLeakPreventionEnabled`. */
  predicate IsContextLeakPreventionEnabled(policy: PolicyRule) {
    policy.contextLeakPrevention.enabled
  }

  /** The policy built from plain lists and flags. */
  function CreateFrom(version: string, blockedIntents: seq<string>, sensitiveScope: seq<string>,
                      protectedRoles: seq<string>, immutableInstructions: seq<string>,
                      enabled: bool, blockMetadataExposure: bool, sanitizeInternalReferences: bool)
    : Result<PolicyRule, PolicyRuleError>
  {
    CreatePolicyRule(Typed(version), Typed(blockedIntents), Typed(sensitiveScope),
                     Typed(RoleProtectionArg(Typed(protectedRoles), Typed(immutableInstructions))),
                     Typed(ContextLeakPreventionArg(Typed(enabled), Typed(blockMetadataExposure), Typed(sanitizeInternalReferences))))
  }

  /** On a created policy the queries answer exactly for the lists and the
      flag it was created from. */
  lemma QueriesMatchInputs(version: string, blockedIntents: seq<string>, sensitiveScope: seq<string>,
                           protectedRoles: seq<string>, immutableInstructions: seq<string>,
                           enabled: bool, blockMetadataExposure: bool, sanitizeInternalReferences: bool, s: string)
    requires !IsBlank(version)
    ensures var r := CreateFrom(version, blockedIntents, sensitiveScope, protectedRoles, immutableInstructions,
                                enabled, blockMetadataExposure, sanitizeInternalReferences);
      && r.Ok?
      && (IsIntentBlocked(r.value, s) <==> s in blockedIntents)
      && (IsScopeSensitive(r.value, s) <==> s in sensitiveScope)
      && (IsRoleProtected(r.value, s) <==> s in protectedRoles)
      && (IsInstructionImmutable(r.value, s) <==> s in immutableInstructions)
      && (IsContextLeakPreventionEnabled(r.value) <==> enabled)
  {
  }

  /** Re-creating a policy from a created one gives the same policy: the
      stored version is already trimmed. */
  lemma RecreateIsIdentity(p: PolicyRule)
    requires !IsBlank(p.version) && Trim(p.version) == p.version
    ensures CreateFrom(p.version, p.blockedIntents, p.sensitiveScope, p.roleProtection.protectedRoles,
                       p.roleProtection.immutableInstructions, p.contextLeakPrevention.enabled,
                       p.contextLeakPrevention.blockMetadataExposure,
                       p.contextLeakPrevention.sanitizeInternalReferences) == Ok(p)
  {
  }
}
