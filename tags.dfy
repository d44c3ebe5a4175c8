/** Threat tags: the registry of tag types, the validated tag record, and the
    canonical `<aipip:type>…</aipip:type>` serialisation. */
module ThreatTags {
  import opened Wrappers
  import opened Js
  import Detect

  /** The tag types are the detection taxonomy, in the same order. */
  const VALID_TAG_TYPES: seq<string> := Detect.THREAT_TYPES

  /** `isValidThreatTagType`: exact, case- and separator-sensitive membership. */
  predicate IsValidThreatTagType(value: string) {
    value in VALID_TAG_TYPES
  }

  /** Every taxonomy id is accepted; the empty string, an underscore variant
      and an upper-case variant are not. */
  lemma TagTypeExamples()
    ensures forall i :: 0 <= i < |Detect.THREAT_TYPES| ==> IsValidThreatTagType(Detect.THREAT_TYPES[i])
    ensures |VALID_TAG_TYPES| == 5
    ensures !IsValidThreatTagType("")
    ensures !IsValidThreatTagType("prompt_injection")
    ensures !IsValidThreatTagType("PROMPT-INJECTION")
  {
    Detect.ThreatTypesDistinct();
    assert "prompt_injection"[6] == '_' && "prompt-injection"[6] == '-';
    assert "PROMPT-INJECTION"[0] == 'P';
    assert forall i :: 0 <= i < |VALID_TAG_TYPES| ==> VALID_TAG_TYPES[i][0] != 'P' && |VALID_TAG_TYPES[i]| > 0;
  }

  datatype ThreatTag = ThreatTag(segmentId: string, startOffset: int, endOffset: int, tagType: string, confidence: real)

  /** Which check of `createThreatTag` failed, in the order they run. */
  datatype TagError = BlankSegmentId | InvalidStartOffset | InvalidEndOffset | InvalidType | InvalidConfidence

  /** `createThreatTag`. A missing or non-string segment id is `Untyped`; a
      non-number offset or confidence is `NonFinite`. */
  function CreateThreatTag(segmentId: Typed<string>, startOffset: JsNum<int>, endOffset: JsNum<int>,
                           tagType: string, confidence: JsNum<real>): (r: Result<ThreatTag, TagError>)
    ensures segmentId.Untyped? || IsBlank(segmentId.value) ==> r == Err(BlankSegmentId)
    ensures r.Ok? <==>
      && segmentId.Typed? && !IsBlank(segmentId.value)
      && startOffset.Finite? && startOffset.value >= 0
      && endOffset.Finite? && endOffset.value >= startOffset.value
      && IsValidThreatTagType(tagType)
      && confidence.Finite? && 0.0 <= confidence.value <= 1.0
    ensures r.Ok? ==>
      && r.value.segmentId == Trim(segmentId.value) && !IsBlank(r.value.segmentId)
      && r.value.startOffset == startOffset.value && r.value.endOffset == endOffset.value
      && r.value.tagType == tagType && r.value.confidence == confidence.value
  {
    if segmentId.Untyped? || IsBlank(segmentId.value) then Err(BlankSegmentId)
    else if startOffset.NonFinite? || startOffset.value < 0 then Err(InvalidStartOffset)
    else if endOffset.NonFinite? || endOffset.value < startOffset.value then Err(InvalidEndOffset)
    else if !IsValidThreatTagType(tagType) then Err(InvalidType)
    else if confidence.NonFinite? || confidence.value < 0.0 || confidence.value > 1.0 then Err(InvalidConfidence)
    else
      TrimIdempotent(segmentId.value);
      Ok(ThreatTag(Trim(segmentId.value), startOffset.value, endOffset.value, tagType, confidence.value))
  }

  /** A zero-length tag is accepted, and both ends of the confidence range are. */
  lemma ZeroLengthTagAccepted(segmentId: string, offset: nat, tagType: string)
    requires !IsBlank(segmentId) && IsValidThreatTagType(tagType)
    ensures CreateThreatTag(Typed(segmentId), Finite(offset), Finite(offset), tagType, Finite(0.0)).Ok?
    ensures CreateThreatTag(Typed(segmentId), Finite(offset), Finite(offset), tagType, Finite(1.0)).Ok?
  {
  }

  const AIPIP_NAMESPACE: string := "aipip"

  /** `openTag`. */
  function OpenTag(tagType: string): (r: string)
    ensures |r| == |tagType| + |AIPIP_NAMESPACE| + 3
    ensures r[0] == '<' && r[1..|AIPIP_NAMESPACE| + 2] == AIPIP_NAMESPACE + ":" && r[|r| - 1] == '>'
    ensures r[|AIPIP_NAMESPACE| + 2..|r| - 1] == tagType
  {
    "<" + AIPIP_NAMESPACE + ":" + tagType + ">"
  }

  /** `closeTag`. */
  function CloseTag(tagType: string): (r: string)
    ensures |r| == |tagType| + |AIPIP_NAMESPACE| + 4
    ensures r[..2] == "</" && r[2..|AIPIP_NAMESPACE| + 3] == AIPIP_NAMESPACE + ":" && r[|r| - 1] == '>'
    ensures r[|AIPIP_NAMESPACE| + 3..|r| - 1] == tagType
  {
    "</" + AIPIP_NAMESPACE + ":" + tagType + ">"
  }

  /** `wrapWithTag`. */
  function WrapWithTag(tagType: string, content: string): (r: string)
    ensures |r| == |OpenTag(tagType)| + |content| + |CloseTag(tagType)|
    ensures r[..|OpenTag(tagType)|] == OpenTag(tagType)
    ensures r[|OpenTag(tagType)|..|OpenTag(tagType)| + |content|] == content
    ensures r[|OpenTag(tagType)| + |content|..] == CloseTag(tagType)
  {
    OpenTag(tagType) + content + CloseTag(tagType)
  }

  /** The inverse of wrapping: removes the opening tag in front and the
      closing tag behind, when both are there. */
  function StripTag(tagType: string, s: string): (r: Option<string>)
    ensures r.Some? ==> WrapWithTag(tagType, r.value) == s
  {
    var open := OpenTag(tagType);
    var close := CloseTag(tagType);
    if |s| >= |open| + |close| && s[..|open|] == open && s[|s| - |close|..] == close then
      var inner := s[|open|..|s| - |close|];
      assert s == open + inner + close;
      Some(inner)
    else None
  }

  /** Stripping a wrapped content gives back the content. */
  lemma StripWrap(tagType: string, content: string)
    ensures StripTag(tagType, WrapWithTag(tagType, content)) == Some(content)
  {
    var w := WrapWithTag(tagType, content);
    assert w[|w| - |CloseTag(tagType)|..] == CloseTag(tagType);
  }

  /** Wrapping with one tag type is injective in the content, and the
      opening tag determines the tag type. */
  lemma WrapInjective(tagType: string, a: string, b: string, otherType: string)
    ensures WrapWithTag(tagType, a) == WrapWithTag(tagType, b) ==> a == b
    ensures OpenTag(tagType) == OpenTag(otherType) ==> tagType == otherType
  {
    if WrapWithTag(tagType, a) == WrapWithTag(tagType, b) {
      StripWrap(tagType, a);
      StripWrap(tagType, b);
    }
  }

  /** An opening tag is never a closing tag: the second character differs. */
  lemma OpenIsNotClose(a: string, b: string)
    ensures OpenTag(a) != CloseTag(b)
  {
    assert OpenTag(a)[1] == 'a' && CloseTag(b)[1] == '/';
  }

  /** Wrapping the empty string gives the two tags back to back. */
  lemma WrapEmpty(tagType: string)
    ensures WrapWithTag(tagType, "") == OpenTag(tagType) + CloseTag(tagType)
  {
    assert OpenTag(tagType) + "" == OpenTag(tagType);
  }
}
