/** Extends a lineage with the entry of the ISL layer. */
module IslLineage {
  import opened Wrappers
  import opened Js
  import opened LineageEntries
  import opened Lineage

  const ISL_STEP: string := "ISL"

  /** `buildISLLineage`: the previous lineage followed by one "ISL" entry
      stamped with `timestamp`; a negative or non-finite timestamp is refused
      by the entry constructor. */
  function BuildIslLineage(previous: seq<LineageEntry>, timestamp: JsNum<int>): (r: Result<seq<LineageEntry>, LineageError>)
    ensures r.Ok? <==> timestamp.Finite? && timestamp.value >= 0
    ensures r.Err? ==> r.error == InvalidTimestamp
    ensures r.Ok? ==>
      && |r.value| == |previous| + 1
      && r.value[..|previous|] == previous
      && r.value[|previous|] == LineageEntry(ISL_STEP, timestamp.value)
  {
    CapitalStepValid(ISL_STEP);
    var entry := CreateLineageEntry(ISL_STEP, timestamp);
    if entry.Err? then Err(entry.error) else Ok(AddLineageEntry(previous, entry.value))
  }
}

/** Extends a lineage with the entry of the AAL layer. */
module AalLineage {
  import opened Wrappers
  import opened Js
  import opened LineageEntries
  import opened Lineage

  const AAL_STEP: string := "AAL"

  /** `buildAALLineage`: the previous lineage followed by one "AAL" entry
      stamped with `timestamp`; a negative or non-finite timestamp is refused
      by the entry constructor. */
  function BuildAalLineage(previous: seq<LineageEntry>, timestamp: JsNum<int>): (r: Result<seq<LineageEntry>, LineageError>)
    ensures r.Ok? <==> timestamp.Finite? && timestamp.value >= 0
    ensures r.Err? ==> r.error == InvalidTimestamp
    ensures r.Ok? ==>
      && |r.value| == |previous| + 1
      && r.value[..|previous|] == previous
      && r.value[|previous|] == LineageEntry(AAL_STEP, timestamp.value)
  {
    CapitalStepValid(AAL_STEP);
    var entry := CreateLineageEntry(AAL_STEP, timestamp);
    if entry.Err? then Err(entry.error) else Ok(AddLineageEntry(previous, entry.value))
  }
}
