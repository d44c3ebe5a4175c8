/** Records produced by the instruction sanitization layer. */
module IslTypes {
  import opened Wrappers
  import opened LineageEntries
  import opened TrustLevels
  import opened PiDetections
  import opened PiDetectionResults
  import opened AnomalyScores
  import opened AalTypes

  datatype SanitizationLevel = Minimal | Moderate | Aggressive

  /** One segment after sanitization. */
  datatype IslSegment = IslSegment(
    id: string,
    originalContent: string,
    sanitizedContent: string,
    trust: TrustLevel,
    lineage: seq<LineageEntry>,
    piDetection: Option<PiDetectionResult>,
    anomalyScore: Option<AnomalyScore>,
    instructionsRemoved: seq<RemovedInstruction>,
    sanitizationLevel: SanitizationLevel)

  /** Result counters; the optional ones are absent when a builder omits them. */
  datatype IslMetadata = IslMetadata(
    totalSegments: nat,
    sanitizedSegments: nat,
    blockedSegments: Option<nat>,
    instructionsRemoved: Option<nat>,
    processingTimeMs: Option<int>)

  datatype IslResult = IslResult(
    segments: seq<IslSegment>,
    lineage: seq<LineageEntry>,
    metadata: IslMetadata)

  /** `segment.piDetection?.detections`, empty when the segment carries none. */
  function SegmentDetections(s: IslSegment): seq<PiDetection> {
    if s.piDetection.Some? then s.piDetection.value.detections else []
  }

  /** The detections of every segment that carries a detection result,
      concatenated in segment order (`filter` then `flatMap`). */
  function AllDetections(segs: seq<IslSegment>): (ds: seq<PiDetection>)
    ensures |segs| == 0 ==> ds == []
  {
    if |segs| == 0 then []
    else AllDetections(segs[..|segs| - 1]) + SegmentDetections(segs[|segs| - 1])
  }

  /** Flattening a concatenation of segment lists concatenates the flattenings. */
  lemma {:induction false} AllDetectionsAppend(a: seq<IslSegment>, b: seq<IslSegment>)
    ensures AllDetections(a + b) == AllDetections(a) + AllDetections(b)
  {
    if |b| == 0 {
      assert a + b == a;
    } else {
      assert (a + b)[..|a + b| - 1] == a + b[..|b| - 1];
      AllDetectionsAppend(a, b[..|b| - 1]);
    }
  }

  /** Every detection of every segment appears in the flattening, and nothing else does. */
  lemma {:induction false} AllDetectionsMembers(segs: seq<IslSegment>, d: PiDetection)
    ensures d in AllDetections(segs) <==> exists j :: 0 <= j < |segs| && d in SegmentDetections(segs[j])
  {
    if |segs| > 0 {
      var init := segs[..|segs| - 1];
      AllDetectionsMembers(init, d);
      if d in AllDetections(init) {
        var j :| 0 <= j < |init| && d in SegmentDetections(init[j]);
        assert segs[j] == init[j];
      }
      if exists j :: 0 <= j < |segs| && d in SegmentDetections(segs[j]) {
        var j :| 0 <= j < |segs| && d in SegmentDetections(segs[j]);
        if j < |init| {
          assert segs[j] == init[j];
        }
      }
    }
  }
}
