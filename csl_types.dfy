/** Records produced by the content segmentation layer, as far as the
    sanitization layer reads them. */
module CslTypes {
  import opened LineageEntries
  import opened TrustLevels

  /** One classified segment: its id, its unmodified content, its trust
      level and the lineage started for it. */
  datatype CslSegment = CslSegment(id: string, content: string, trust: TrustLevel, lineage: seq<LineageEntry>)

  /** The segments of one input, in order, and the lineage of the whole run. */
  datatype CslResult = CslResult(segments: seq<CslSegment>, lineage: seq<LineageEntry>)
}
