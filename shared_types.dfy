/** Structural types shared by every layer of the pipeline. */
module SharedTypes {
  import opened Wrappers

  /** A zero-based range inside a string: `start` inclusive, `end` exclusive.
      Offsets count the string's characters (Unicode scalar values). */
  datatype Position = Position(start: int, end: int)

  /** The shape the shared `Position` type documents: `0 <= start <= end`. */
  predicate WellFormed(p: Position) {
    0 <= p.start <= p.end
  }

  /** The recommended action attached to a detection result or a decision. */
  datatype AnomalyAction = Allow | Warn | Block

  /** The action's wire name. */
  function ActionName(a: AnomalyAction): (s: string)
    ensures |s| > 0
  {
    match a
    case Allow => "ALLOW"
    case Warn => "WARN"
    case Block => "BLOCK"
  }

  /** Reads an action from its wire name: the membership test
      `['ALLOW', 'WARN', 'BLOCK'].includes(s)`. */
  function ParseAction(s: string): (r: Option<AnomalyAction>)
    ensures r.Some? <==> s in {"ALLOW", "WARN", "BLOCK"}
    ensures r.Some? ==> ActionName(r.value) == s
  {
    if s == "ALLOW" then Some(Allow)
    else if s == "WARN" then Some(Warn)
    else if s == "BLOCK" then Some(Block)
    else None
  }

  /** Every action's name reads back as that action, so names are distinct. */
  lemma ActionNameRoundTrip(a: AnomalyAction)
    ensures ParseAction(ActionName(a)) == Some(a)
  {
  }

  /** Severity order ALLOW < WARN < BLOCK. */
  function Severity(a: AnomalyAction): (n: nat)
    ensures n <= 2
  {
    match a
    case Allow => 0
    case Warn => 1
    case Block => 2
  }
}
