/** The mask that keeps the first few characters of the original. */
module KeepingFirstFewCharactersMasks {
  import opened Wrappers

  /** `UInt16`. */
  newtype uint16 = x: int | 0 <= x < 0x1_0000

  function Min(a: int, b: int): int
  {
    if a <= b then a else b
  }

  /** `KeepingFirstFewCharactersMask(numberOfCharactersToKeep)`. */
  datatype KeepingFirstFewCharactersMask = KeepingFirstFewCharactersMask(numberOfCharactersToKeep: uint16)

  /** `CreateMask(source)`: the first min(length, n) characters of the
      source followed by "***"; a null source throws. */
  function CreateMask(m: KeepingFirstFewCharactersMask, source: Option<string>): (r: Result<string>)
    ensures source.None? ==> r == Failure(NullReference)
    ensures source.Some? ==> r.Success?
    ensures source.Some? ==> |r.value| == Min(|source.value|, m.numberOfCharactersToKeep as int) + 3
    ensures source.Some? ==> forall i :: 0 <= i < Min(|source.value|, m.numberOfCharactersToKeep as int) ==> r.value[i] == source.value[i]
    ensures source.Some? ==> r.value[|r.value| - 3..] == "***"
  {
    match source
    case None => Failure(NullReference)
    case Some(s) => Success(s[..Min(|s|, m.numberOfCharactersToKeep as int)] + "***")
  }

  /** When n is at least the length, the whole source is kept. */
  lemma KeepsShortSourceWhole(m: KeepingFirstFewCharactersMask, s: string)
    requires m.numberOfCharactersToKeep as int >= |s|
    ensures CreateMask(m, Some(s)) == Success(s + "***")
  {
    assert s[..|s|] == s;
  }

  /** Keeping no characters gives the bare "***", whatever the source. */
  lemma KeepingNoneIsStars(s: string)
    ensures CreateMask(KeepingFirstFewCharactersMask(0), Some(s)) == Success("***")
  {
    assert s[..0] + "***" == "***";
  }

}

/** The mask that is a fixed replacement value. */
module FixedValueMasks {
  import opened Wrappers

  /** `FixedValueMask(value = "***MASKED***")`: the value is fixed at
      construction and may be null. */
  datatype FixedValueMask = FixedValueMask(value: Option<string> := Some("***MASKED***"))

  /** `CreateMask(source)` returns the stored value for any source,
      including null. */
  function CreateMask(m: FixedValueMask, source: Option<string>): (r: Option<string>)
    ensures r == m.value
  {
    m.value
  }

  /** So every call returns the same string, and the default one is
      "***MASKED***". */
  lemma FixedValueIgnoresSource(m: FixedValueMask, a: Option<string>, b: Option<string>)
    ensures CreateMask(m, a) == CreateMask(m, b)
    ensures CreateMask(FixedValueMask(), a) == Some("***MASKED***")
  {
  }
}
