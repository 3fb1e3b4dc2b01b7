/** Where a piece of evidence comes from: the checks that all evidence codecs of the repository share. */
module Provenance {

  const METADATA_LIMIT: nat := 128

  /** A full source revision in lower-case hexadecimal. */
  predicate ValidSha(s: string) {
    |s| == 40 && forall i | 0 <= i < |s| :: '0' <= s[i] <= '9' || 'a' <= s[i] <= 'f'
  }

  /** A short name of a kernel or an architecture. */
  predicate ValidMetadata(s: string) {
    0 < |s| <= METADATA_LIMIT && forall i | 0 <= i < |s| :: MetadataCharacter(s[i])
  }

  predicate MetadataCharacter(c: char) { 'a' <= c <= 'z' || 'A' <= c <= 'Z' || '0' <= c <= '9' || c in {'.', '_', '-', '+'} }

  predicate PlatformCharacter(c: char) {
    c in {
    'a', 'b', 'c', 'd', 'e', 'f', 'g', 'h', 'i', 'j', 'k', 'l', 'm', 'n', 'o', 'p', 'q', 'r', 's', 't', 'u', 'v',
    'w', 'x', 'y', 'z', 'A', 'B', 'C', 'D', 'E', 'F', 'G', 'H', 'I', 'J', 'K', 'L', 'M', 'N', 'O', 'P', 'Q', 'R',
    'S', 'T', 'U', 'V', 'W', 'X', 'Y', 'Z', '0', '1', '2', '3', '4', '5', '6', '7', '8', '9', '.', '_', '-', '+'}
  }

  /** A full revision has forty hexadecimal digits; a platform name at most 128 of these characters. */
  lemma ProvenanceExactly(s: string)
    ensures ValidSha(s) <==> |s| == 40 && forall i | 0 <= i < 40 :: s[i] in {
      '0', '1', '2', '3', '4', '5', '6', '7', '8', '9', 'a', 'b', 'c', 'd', 'e', 'f'}
    ensures ValidMetadata(s) <==> 1 <= |s| <= 128 && forall i | 0 <= i < |s| :: PlatformCharacter(s[i])
  {
    forall i | 0 <= i < |s| ensures MetadataCharacter(s[i]) <==> PlatformCharacter(s[i]) { CharacterExactly(s[i]); }
  }

  lemma CharacterExactly(c: char)
    ensures MetadataCharacter(c) <==> PlatformCharacter(c)
  {
  }
}
