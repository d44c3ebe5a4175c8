/** Records exchanged by the agent action layer. */
module AalTypes {
  import opened Wrappers
  import opened Js
  import opened SharedTypes

  /** The text `Detected <type> pattern with confidence <c>` (confidence printed
      with three decimals), kept as the values it is made from. */
  datatype InstructionDescription = DetectionDescription(patternType: string, confidence: real)

  /** An instruction scheduled for (or recorded after) removal. `kind` is the
      detection's pattern type, `pattern` its matched text; `segmentId` is set
      only by plans built from a full result. */
  datatype RemovedInstruction = RemovedInstruction(
    kind: string,
    pattern: string,
    position: Position,
    description: InstructionDescription,
    segmentId: Option<string>)

  /** `policy.thresholds`: each value is a number or not. */
  datatype Thresholds = Thresholds(warn: Typed<real>, block: Typed<real>)

  /** `policy.remediation` and `policy.removal`: `enabled` is a boolean or not. */
  datatype Toggle = Toggle(enabled: Typed<bool>)

  /** The agent policy; each part may be missing (`null` or not an object). */
  datatype AgentPolicy = AgentPolicy(
    thresholds: Option<Thresholds>,
    remediation: Option<Toggle>,
    removal: Option<Toggle>)

  /** The policy has numeric thresholds, as its declared type promises. */
  predicate HasNumericThresholds(p: AgentPolicy) {
    p.thresholds.Some? && p.thresholds.value.warn.Typed? && p.thresholds.value.block.Typed?
  }

  function WarnThreshold(p: AgentPolicy): real
    requires HasNumericThresholds(p)
  {
    p.thresholds.value.warn.value
  }

  function BlockThreshold(p: AgentPolicy): real
    requires HasNumericThresholds(p)
  {
    p.thresholds.value.block.value
  }
}
