/** Assembles the result record of the sanitization layer. */
module BuildIslResult {
  import opened Wrappers
  import opened LineageEntries
  import opened IslTypes
  import opened CslTypes
  import Sanitize

  /** `buildISLResult`: keeps the segments and the lineage as given, counts
      every segment as total and as sanitized, and records the processing
      time only when one is given. No other counter is set. */
  function BuildIslResult(segments: seq<IslSegment>, lineage: seq<LineageEntry>, processingTimeMs: Option<int>)
    : (r: IslResult)
    ensures r.segments == segments && r.lineage == lineage
    ensures r.metadata.totalSegments == r.metadata.sanitizedSegments == |segments|
    ensures r.metadata.blockedSegments.None? && r.metadata.instructionsRemoved.None?
    ensures r.metadata.processingTimeMs == processingTimeMs
  {
    var metadata := if processingTimeMs.None? then IslMetadata(|segments|, |segments|, None, None, None)
                    else IslMetadata(|segments|, |segments|, None, None, processingTimeMs);
    IslResult(segments, lineage, metadata)
  }

  /** Rebuilding the output of the sanitization pass keeps its segments,
      lineage and segment counts and drops only the two zero counters. */
  lemma RebuildSanitized(csl: CslResult, now: nat)
    ensures var s := Sanitize.Sanitized(csl, now);
      BuildIslResult(s.segments, s.lineage, None)
        == s.(metadata := s.metadata.(blockedSegments := None, instructionsRemoved := None))
  {
  }
}
