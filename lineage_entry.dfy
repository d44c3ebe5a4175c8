/** A provenance record: which layer touched the content, and when. */
module LineageEntries {
  import opened Wrappers
  import opened Js

  /** One step of a segment's lineage; `timestamp` is milliseconds since the epoch. */
  datatype LineageEntry = LineageEntry(step: string, timestamp: int)

  /** Why `createLineageEntry` refuses its arguments. */
  datatype LineageError = BlankStep | InvalidTimestamp

  /** What every constructed entry satisfies: a trimmed, non-blank step and a
      non-negative timestamp. */
  predicate IsValidEntry(e: LineageEntry) {
    !IsBlank(e.step) && Trim(e.step) == e.step && e.timestamp >= 0
  }
  /** A layer name made of capital letters is a valid step as it stands. */
  lemma CapitalStepValid(step: string)
    requires |step| > 0 && forall i :: 0 <= i < |step| ==> 'A' <= step[i] <= 'Z'
    ensures !IsBlank(step) && Trim(step) == step
  {
    TrimmedWord(step);
  }


  /** `createLineageEntry`: rejects a blank step, then a negative or non-finite
      timestamp; stores the step trimmed and the timestamp unchanged. */
  function CreateLineageEntry(step: string, timestamp: JsNum<int>): (r: Result<LineageEntry, LineageError>)
    ensures IsBlank(step) ==> r == Err(BlankStep)
    ensures !IsBlank(step) && (timestamp.NonFinite? || timestamp.value < 0) ==> r == Err(InvalidTimestamp)
    ensures r.Ok? <==> !IsBlank(step) && timestamp.Finite? && timestamp.value >= 0
    ensures r.Ok? ==> IsValidEntry(r.value) && r.value.step == Trim(step) && timestamp == Finite(r.value.timestamp)
  {
    if IsBlank(step) then Err(BlankStep)
    else if timestamp.NonFinite? || timestamp.value < 0 then Err(InvalidTimestamp)
    else
      TrimIdempotent(step);
      Ok(LineageEntry(Trim(step), timestamp.value))
  }

  /** A timestamp of 0 is accepted. */
  lemma ZeroTimestampAccepted(step: string)
    requires !IsBlank(step)
    ensures CreateLineageEntry(step, Finite(0)).Ok?
    ensures CreateLineageEntry(step, Finite(0)).value.timestamp == 0
  {
  }
}
