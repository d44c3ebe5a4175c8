/** The canonical text that the envelope layer signs: serialised content,
    serialised metadata, and the two joined with the algorithm name. */
module CpeUtils {
  import opened Wrappers
  import opened Js

  /** `[i]:content` for the segment at index `i`. */
  function IndexedLine(i: nat, content: string): (r: string)
    ensures |r| == |NatToDecimal(i)| + 3 + |content|
    ensures r[..|NatToDecimal(i)| + 3] == "[" + NatToDecimal(i) + "]:"
    ensures r[|NatToDecimal(i)| + 3..] == content
  {
    "[" + NatToDecimal(i) + "]:" + content
  }

  /** The indexed lines of the segments, in segment order. */
  function IndexedLines(contents: seq<string>): (r: seq<string>)
    ensures |r| == |contents|
    ensures forall i :: 0 <= i < |r| ==> r[i] == IndexedLine(i, contents[i])
  {
    seq(|contents|, i requires 0 <= i < |contents| => IndexedLine(i, contents[i]))
  }

  /** `serializeContent`: the indexed lines joined with newlines. The
      segments are given by their `sanitizedContent`. */
  function SerializeContent(contents: seq<string>): (r: string)
    ensures |contents| == 0 ==> r == ""
  {
    Join(IndexedLines(contents), "\n")
  }

  /** Serialising one more segment appends a newline and its indexed line. */
  lemma SerializeContentSnoc(contents: seq<string>, last: string)
    ensures SerializeContent(contents + [last])
      == (if |contents| == 0 then "" else SerializeContent(contents) + "\n") + IndexedLine(|contents|, last)
  {
    var lines := IndexedLines(contents + [last]);
    assert lines[..|lines| - 1] == IndexedLines(contents);
  }

  /** Signatures of earlier layers that the metadata may carry. */
  datatype PreviousSignatures = PreviousSignatures(csl: Option<string>, isl: Option<string>)

  /** The metadata fields that are serialised. */
  datatype SignedMetadata = SignedMetadata(timestamp: int, nonce: string, protocolVersion: string,
                                           previousSignatures: Option<PreviousSignatures>)

  /** A signature string that is present and non-empty (`?.csl` is truthy). */
  predicate Truthy(s: Option<string>) {
    s.Some? && |s.value| > 0
  }

  function CslSignature(m: SignedMetadata): Option<string> {
    if m.previousSignatures.Some? then m.previousSignatures.value.csl else None
  }

  function IslSignature(m: SignedMetadata): Option<string> {
    if m.previousSignatures.Some? then m.previousSignatures.value.isl else None
  }

  /** The parts `serializeMetadata` collects: timestamp, nonce and version,
      then the csl signature and the isl signature when they are truthy. */
  function MetadataParts(m: SignedMetadata): (parts: seq<string>)
    ensures 3 <= |parts| <= 5
    ensures parts[0] == "timestamp:" + IntToDecimal(m.timestamp)
    ensures parts[1] == "nonce:" + m.nonce
    ensures parts[2] == "version:" + m.protocolVersion
    ensures |parts| == 3 + (if Truthy(CslSignature(m)) then 1 else 0) + (if Truthy(IslSignature(m)) then 1 else 0)
    ensures Truthy(CslSignature(m)) ==> parts[3] == "csl:" + CslSignature(m).value
    ensures Truthy(IslSignature(m)) ==> parts[|parts| - 1] == "isl:" + IslSignature(m).value
  {
    var base := ["timestamp:" + IntToDecimal(m.timestamp), "nonce:" + m.nonce, "version:" + m.protocolVersion];
    var withCsl := if Truthy(CslSignature(m)) then base + ["csl:" + CslSignature(m).value] else base;
    if Truthy(IslSignature(m)) then withCsl + ["isl:" + IslSignature(m).value] else withCsl
  }

  /** `serializeMetadata`: pushes the optional parts onto the three fixed ones,
      then joins them with "|". */
  method SerializeMetadata(m: SignedMetadata) returns (r: string)
    ensures r == Join(MetadataParts(m), "|")
  {
    var parts := ["timestamp:" + IntToDecimal(m.timestamp), "nonce:" + m.nonce, "version:" + m.protocolVersion];
    if m.previousSignatures.Some? && m.previousSignatures.value.csl.Some? && |m.previousSignatures.value.csl.value| > 0 {
      parts := parts + ["csl:" + m.previousSignatures.value.csl.value];
    }
    if m.previousSignatures.Some? && m.previousSignatures.value.isl.Some? && |m.previousSignatures.value.isl.value| > 0 {
      parts := parts + ["isl:" + m.previousSignatures.value.isl.value];
    }
    r := Join(parts, "|");
  }

  /** Without previous signatures the serialisation is exactly the three
      fixed parts. */
  lemma MetadataWithoutSignatures(timestamp: int, nonce: string, version: string)
    ensures Join(MetadataParts(SignedMetadata(timestamp, nonce, version, None)), "|")
      == "timestamp:" + IntToDecimal(timestamp) + "|nonce:" + nonce + "|version:" + version
  {
    var parts := MetadataParts(SignedMetadata(timestamp, nonce, version, None));
    assert parts[..2][..1] == [parts[0]];
    assert Join(parts[..2], "|") == parts[0] + "|" + parts[1];
    assert parts[..3][..2] == parts[..2];
  }

  const SEPARATOR: string := "\n---\n"
  const ALGORITHM_PREFIX: string := "algorithm:"

  /** `generateSignableContent`: metadata, separator, content, separator,
      then the algorithm name; each piece sits at a fixed offset. */
  function GenerateSignableContent(content: string, metadata: string, algorithm: string): (r: string)
    ensures |r| == |metadata| + |content| + |algorithm| + 2 * |SEPARATOR| + |ALGORITHM_PREFIX|
    ensures r[..|metadata|] == metadata
    ensures r[|metadata|..|metadata| + |SEPARATOR|] == SEPARATOR
    ensures r[|metadata| + |SEPARATOR|..|metadata| + |SEPARATOR| + |content|] == content
    ensures r[|r| - |algorithm|..] == algorithm
  {
    metadata + SEPARATOR + content + SEPARATOR + ALGORITHM_PREFIX + algorithm
  }

  /** Signable texts with the same metadata and algorithm differ exactly
      when their contents differ. */
  lemma SignableContentInjective(content1: string, content2: string, metadata: string, algorithm: string)
    ensures GenerateSignableContent(content1, metadata, algorithm) == GenerateSignableContent(content2, metadata, algorithm)
      <==> content1 == content2
  {
  }
}
