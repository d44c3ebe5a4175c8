/** Lineage shared by every layer: an append-only list of provenance entries. */
module Lineage {
  import opened Wrappers
  import opened LineageEntries

  /** `addLineageEntry`: a new list, the old one followed by `entry`. */
  function AddLineageEntry(lineage: seq<LineageEntry>, entry: LineageEntry): (r: seq<LineageEntry>)
    ensures |r| == |lineage| + 1
    ensures r[..|lineage|] == lineage && r[|lineage|] == entry
  {
    lineage + [entry]
  }

  /** `addLineageEntries`: the old list followed by all of `entries`, in order. */
  function AddLineageEntries(lineage: seq<LineageEntry>, entries: seq<LineageEntry>): (r: seq<LineageEntry>)
    ensures |r| == |lineage| + |entries|
    ensures r[..|lineage|] == lineage && r[|lineage|..] == entries
  {
    lineage + entries
  }

  /** Appending no entries leaves the lineage as it was, and appending one
      entry is adding it. */
  lemma AddLineageEntriesUnits(lineage: seq<LineageEntry>, entry: LineageEntry)
    ensures AddLineageEntries(lineage, []) == lineage
    ensures AddLineageEntries(lineage, [entry]) == AddLineageEntry(lineage, entry)
  {
    assert AddLineageEntries(lineage, []) == AddLineageEntries(lineage, [])[..|lineage|];
  }

  /** `filterLineageByStep`: the entries whose step is `step`, in order. */
  function FilterLineageByStep(lineage: seq<LineageEntry>, step: string): (r: seq<LineageEntry>)
    ensures |r| <= |lineage|
    ensures forall e :: e in r <==> e in lineage && e.step == step
  {
    if |lineage| == 0 then []
    else
      var rest := FilterLineageByStep(lineage[1..], step);
      assert forall e :: e in lineage <==> e == lineage[0] || e in lineage[1..];
      if lineage[0].step == step then [lineage[0]] + rest else rest
  }

  /** Filtering distributes over concatenation, so the order of the kept
      entries is their order in the lineage. */
  lemma {:induction false} FilterAppend(a: seq<LineageEntry>, b: seq<LineageEntry>, step: string)
    ensures FilterLineageByStep(a + b, step) == FilterLineageByStep(a, step) + FilterLineageByStep(b, step)
    decreases |a|
  {
    if |a| > 0 {
      assert (a + b)[1..] == a[1..] + b;
      FilterAppend(a[1..], b, step);
    } else {
      assert a + b == b;
    }
  }

  /** Filtering twice by the same step is filtering once; a lineage whose
      entries all have that step is kept whole. */
  lemma {:induction false} FilterIdempotent(lineage: seq<LineageEntry>, step: string)
    ensures FilterLineageByStep(FilterLineageByStep(lineage, step), step) == FilterLineageByStep(lineage, step)
    decreases |lineage|
  {
    if |lineage| > 0 {
      FilterIdempotent(lineage[1..], step);
      var rest := FilterLineageByStep(lineage[1..], step);
      if lineage[0].step == step {
        assert ([lineage[0]] + rest)[1..] == rest;
      }
    }
  }

  /** `getLastLineageEntry`: absent for an empty lineage, else the last entry. */
  function GetLastLineageEntry(lineage: seq<LineageEntry>): (r: Option<LineageEntry>)
    ensures r.None? <==> |lineage| == 0
    ensures r.Some? ==> r.value == lineage[|lineage| - 1]
  {
    if |lineage| > 0 then Some(lineage[|lineage| - 1]) else None
  }

  /** The last entry after adding one is the one added. */
  lemma LastOfAdded(lineage: seq<LineageEntry>, entry: LineageEntry)
    ensures GetLastLineageEntry(AddLineageEntry(lineage, entry)) == Some(entry)
  {
  }
}
