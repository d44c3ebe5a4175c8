/** The sanitization pass: each classified segment becomes a sanitized
    segment with a level chosen by its trust, and the pass is recorded in
    every lineage. */
module Sanitize {
  import opened Wrappers
  import opened Js
  import opened LineageEntries
  import opened Lineage
  import opened TrustLevels
  import opened AalTypes
  import opened IslTypes
  import opened CslTypes

  /** `getSanitizationLevel`: trusted content gets minimal sanitization,
      semi-trusted moderate, untrusted aggressive. */
  function SanitizationLevelOf(trust: TrustLevel): (level: SanitizationLevel)
    ensures level == Minimal <==> IsTrusted(trust)
    ensures level == Moderate <==> IsSemiTrusted(trust)
    ensures level == Aggressive <==> IsUntrusted(trust)
  {
    if trust.value == TC then Minimal
    else if trust.value == STC then Moderate
    else Aggressive
  }

  datatype SanitizedContent = SanitizedContent(content: string, removed: seq<RemovedInstruction>)

  /** `sanitizeContent`: at every level the content is returned unchanged
      and nothing is reported removed. */
  function SanitizeContent(content: string, level: SanitizationLevel): (r: SanitizedContent)
    ensures r.content == content && |r.removed| == 0
  {
    SanitizedContent(content, [])
  }

  const ISL_STEP: string := "ISL"

  /** The entry each segment receives, stamped with the clock reading `now`. */
  function IslEntry(now: nat): (e: LineageEntry)
    ensures e.step == ISL_STEP && e.timestamp == now
  {
    LineageEntry(ISL_STEP, now)
  }

  /** `createLineageEntry('ISL', now)` never fails and gives the entry above. */
  lemma IslEntryCreated(now: nat)
    ensures CreateLineageEntry(ISL_STEP, Finite(now)) == Ok(IslEntry(now))
    ensures IsValidEntry(IslEntry(now))
  {
    TrimOfTrimmed(ISL_STEP);
  }

  /** The sanitized form of one segment. */
  function SanitizedSegment(s: CslSegment, now: nat): (r: IslSegment)
    ensures r.id == s.id && r.originalContent == s.content && r.trust == s.trust
    ensures r.sanitizedContent == s.content
    ensures r.lineage == s.lineage + [IslEntry(now)]
    ensures r.sanitizationLevel == SanitizationLevelOf(s.trust)
    ensures r.piDetection.None? && r.anomalyScore.None? && |r.instructionsRemoved| == 0
  {
    var level := SanitizationLevelOf(s.trust);
    var sanitized := SanitizeContent(s.content, level);
    IslSegment(s.id, s.content, sanitized.content, s.trust, AddLineageEntry(s.lineage, IslEntry(now)),
               None, None, [], level)
  }

  /** What `sanitize` returns when every clock reading is `now`: one
      sanitized segment per input segment, the run's lineage followed by one
      "ISL" entry per segment, and the counters. */
  function Sanitized(csl: CslResult, now: nat): (r: IslResult)
    ensures |r.segments| == |csl.segments|
    ensures forall i :: 0 <= i < |r.segments| ==> r.segments[i] == SanitizedSegment(csl.segments[i], now)
    ensures |r.lineage| == |csl.lineage| + |csl.segments|
    ensures r.lineage[..|csl.lineage|] == csl.lineage
    ensures forall i :: |csl.lineage| <= i < |r.lineage| ==> r.lineage[i] == IslEntry(now)
    ensures r.metadata == IslMetadata(|csl.segments|, |csl.segments|, Some(0), Some(0), None)
  {
    IslResult(
      seq(|csl.segments|, i requires 0 <= i < |csl.segments| => SanitizedSegment(csl.segments[i], now)),
      csl.lineage + seq(|csl.segments|, _ => IslEntry(now)),
      IslMetadata(|csl.segments|, |csl.segments|, Some(0), Some(0), None))
  }

  /** `sanitize`. The clock is read once per segment in the source; here
      every reading is `now`. */
  method SanitizeResult(csl: CslResult, now: nat) returns (r: IslResult)
    ensures r == Sanitized(csl, now)
  {
    var segments: seq<IslSegment> := [];
    var allLineage := csl.lineage;
    var blockedCount := 0;
    var instructionsRemovedCount := 0;
    IslEntryCreated(now);
    var i := 0;
    while i < |csl.segments|
      invariant 0 <= i <= |csl.segments|
      invariant segments == SanitizedPrefix(csl, now, i)
      invariant allLineage == csl.lineage + seq(i, _ => IslEntry(now))
      invariant instructionsRemovedCount == 0
    {
      var islSegment, lastLineageEntry, removed := SanitizeSegment(csl.segments[i], now);
      segments := segments + [islSegment];
      if lastLineageEntry.Some? {
        allLineage := AddLineageEntry(allLineage, lastLineageEntry.value);
      }
      instructionsRemovedCount := instructionsRemovedCount + removed;
      SanitizedPrefixStep(csl, now, i);
      i := i + 1;
    }
    SanitizedPrefixWhole(csl, now);
    r := IslResult(segments, allLineage,
                   IslMetadata(|segments|, |segments|, Some(blockedCount), Some(instructionsRemovedCount), None));
  }

  /** The body of the pass's loop for one segment: the sanitized segment,
      the newest entry of its lineage, and how many instructions it lost. */
  method SanitizeSegment(cslSegment: CslSegment, now: nat)
    returns (islSegment: IslSegment, lastLineageEntry: Option<LineageEntry>, removed: nat)
    ensures islSegment == SanitizedSegment(cslSegment, now)
    ensures lastLineageEntry == Some(IslEntry(now)) && removed == 0
  {
    IslEntryCreated(now);
    var level := SanitizationLevelOf(cslSegment.trust);
    var sanitized := SanitizeContent(cslSegment.content, level);
    var removedInstructions: seq<RemovedInstruction> := [];
    var entry := CreateLineageEntry(ISL_STEP, Finite(now));
    if entry.Err? {
      assert false;
    } else {
      islSegment := IslSegment(cslSegment.id, cslSegment.content, sanitized.content, cslSegment.trust,
                               AddLineageEntry(cslSegment.lineage, entry.value), None, None,
                               removedInstructions, level);
      lastLineageEntry := GetLastLineageEntry(islSegment.lineage);
      removed := |removedInstructions|;
    }
  }

  /** The first `n` segments sanitized. */
  function SanitizedPrefix(csl: CslResult, now: nat, n: nat): (r: seq<IslSegment>)
    requires n <= |csl.segments|
    ensures |r| == n
  {
    seq(n, j requires 0 <= j < n => SanitizedSegment(csl.segments[j], now))
  }

  lemma SanitizedPrefixStep(csl: CslResult, now: nat, i: nat)
    requires i < |csl.segments|
    ensures SanitizedPrefix(csl, now, i + 1) == SanitizedPrefix(csl, now, i) + [SanitizedSegment(csl.segments[i], now)]
    ensures seq(i + 1, _ => IslEntry(now)) == seq(i, _ => IslEntry(now)) + [IslEntry(now)]
  {
    assert SanitizedPrefix(csl, now, i + 1)[i] == SanitizedSegment(csl.segments[i], now);
  }

  lemma SanitizedPrefixWhole(csl: CslResult, now: nat)
    ensures SanitizedPrefix(csl, now, |csl.segments|) == Sanitized(csl, now).segments
    ensures csl.lineage + seq(|csl.segments|, _ => IslEntry(now)) == Sanitized(csl, now).lineage
  {
  }

  /** Each segment's newest lineage entry is the entry the pass appends to
      the run's lineage at that segment's position, and every such entry is
      a valid "ISL" entry. */
  lemma SegmentEntriesMatchRunLineage(csl: CslResult, now: nat, i: nat)
    requires i < |csl.segments|
    ensures var r := Sanitized(csl, now);
      GetLastLineageEntry(r.segments[i].lineage) == Some(r.lineage[|csl.lineage| + i])
    ensures IsValidEntry(Sanitized(csl, now).lineage[|csl.lineage| + i])
  {
    IslEntryCreated(now);
  }

  /** The pass changes no content and loses no segment: originals and
      sanitized contents equal the input contents, ids and trust carry over,
      and the run's earlier lineage is kept. */
  lemma SanitizePreservesContent(csl: CslResult, now: nat)
    ensures var r := Sanitized(csl, now);
      && (forall i :: 0 <= i < |r.segments| ==>
            r.segments[i].originalContent == r.segments[i].sanitizedContent == csl.segments[i].content)
      && (forall i :: 0 <= i < |r.segments| ==> r.segments[i].id == csl.segments[i].id)
      && r.metadata.totalSegments == r.metadata.sanitizedSegments == |r.segments|
      && FilterLineageByStep(r.lineage, ISL_STEP) == FilterLineageByStep(csl.lineage, ISL_STEP) + seq(|csl.segments|, _ => IslEntry(now))
  {
    var r := Sanitized(csl, now);
    var added := seq(|csl.segments|, _ => IslEntry(now));
    assert r.lineage == csl.lineage + added;
    FilterAppend(csl.lineage, added, ISL_STEP);
    AllIslKept(added, now);
  }

  /** Filtering a run of "ISL" entries by the "ISL" step keeps them all. */
  lemma {:induction false} AllIslKept(entries: seq<LineageEntry>, now: nat)
    requires forall i :: 0 <= i < |entries| ==> entries[i] == IslEntry(now)
    ensures FilterLineageByStep(entries, ISL_STEP) == entries
  {
    if |entries| > 0 {
      AllIslKept(entries[1..], now);
    }
  }
}
