/** A content digest: a hexadecimal value of the length its algorithm fixes,
    stored in lower case. */
module ContentHashes {
  import opened Wrappers
  import opened Js

  datatype HashAlgorithm = Sha256 | Sha512

  datatype ContentHash = ContentHash(value: string, algorithm: HashAlgorithm)

  /** Which check of `createContentHash` failed, in the order they run. */
  datatype HashError = EmptyValue | InvalidAlgorithm | NotHexadecimal | WrongLength

  const DEFAULT_ALGORITHM: string := "sha256"

  function AlgorithmName(a: HashAlgorithm): string {
    match a
    case Sha256 => "sha256"
    case Sha512 => "sha512"
  }

  function ParseAlgorithm(name: string): (r: Option<HashAlgorithm>)
    ensures r.Some? <==> name == "sha256" || name == "sha512"
    ensures r.Some? ==> AlgorithmName(r.value) == name
  {
    if name == "sha256" then Some(Sha256)
    else if name == "sha512" then Some(Sha512)
    else None
  }

  /** The digits `/^[a-f0-9]+$/i` accepts. */
  predicate IsHexChar(c: char) {
    '0' <= c <= '9' || 'a' <= c <= 'f' || 'A' <= c <= 'F'
  }

  predicate IsLowerHexChar(c: char) {
    '0' <= c <= '9' || 'a' <= c <= 'f'
  }

  /** Number of hexadecimal digits of each digest. */
  function ExpectedLength(a: HashAlgorithm): nat {
    match a
    case Sha256 => 64
    case Sha512 => 128
  }

  /** What every created hash satisfies. */
  predicate IsValidHash(h: ContentHash) {
    |h.value| == ExpectedLength(h.algorithm) && forall i :: 0 <= i < |h.value| ==> IsLowerHexChar(h.value[i])
  }

  /** `createContentHash`. A missing or non-string value is `Untyped`; an
      absent algorithm is "sha256". */
  function CreateContentHash(value: Typed<string>, algorithm: Option<string>): (r: Result<ContentHash, HashError>)
    ensures value.Untyped? || value.value == "" ==> r == Err(EmptyValue)
    ensures r.Ok? <==>
      && value.Typed? && |value.value| > 0
      && ParseAlgorithm(algorithm.GetOr(DEFAULT_ALGORITHM)).Some?
      && (forall i :: 0 <= i < |value.value| ==> IsHexChar(value.value[i]))
      && |value.value| == ExpectedLength(ParseAlgorithm(algorithm.GetOr(DEFAULT_ALGORITHM)).value)
    ensures r.Ok? ==>
      && IsValidHash(r.value)
      && r.value.value == ToLowerAscii(value.value)
      && AlgorithmName(r.value.algorithm) == algorithm.GetOr(DEFAULT_ALGORITHM)
  {
    var name := algorithm.GetOr(DEFAULT_ALGORITHM);
    if value.Untyped? || value.value == "" then Err(EmptyValue)
    else if ParseAlgorithm(name).None? then Err(InvalidAlgorithm)
    else if exists i :: 0 <= i < |value.value| && !IsHexChar(value.value[i]) then Err(NotHexadecimal)
    else if |value.value| != ExpectedLength(ParseAlgorithm(name).value) then Err(WrongLength)
    else Ok(ContentHash(ToLowerAscii(value.value), ParseAlgorithm(name).value))
  }

  /** Upper- and lower-case spellings of a digest give the same hash. */
  lemma CaseInsensitive(value: string, algorithm: Option<string>)
    ensures CreateContentHash(Typed(value), algorithm).Ok? ==>
      CreateContentHash(Typed(ToLowerAscii(value)), algorithm) == CreateContentHash(Typed(value), algorithm)
  {
    var lower := ToLowerAscii(value);
    if CreateContentHash(Typed(value), algorithm).Ok? {
      assert forall i :: 0 <= i < |lower| ==> IsHexChar(lower[i]);
      assert ToLowerAscii(lower) == lower;
    }
  }

  /** Re-creating a hash from a created hash gives the same hash. */
  lemma RecreateIsIdentity(h: ContentHash)
    requires IsValidHash(h)
    ensures CreateContentHash(Typed(h.value), Some(AlgorithmName(h.algorithm))) == Ok(h)
  {
    assert h.value != "" by {
      assert |h.value| == ExpectedLength(h.algorithm) > 0;
    }
    assert ToLowerAscii(h.value) == h.value;
  }

  /** `isSha256` and `isSha512`: exactly one holds of any hash. */
  predicate IsSha256(h: ContentHash) { h.algorithm == Sha256 }

  predicate IsSha512(h: ContentHash) { h.algorithm == Sha512 }

  lemma ExactlyOneAlgorithm(h: ContentHash)
    ensures IsSha256(h) != IsSha512(h)
  {
  }
}
