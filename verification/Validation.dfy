/** Identifier, path and reference checks shared by the importer and the action builder. */
module Validation {
  import opened Results
  import opened Text

  const SHA256_MARK: string := "@sha256:"

  predicate AllLowerHex(s: string) {
    forall i :: 0 <= i < |s| ==> IsLowerHex(s[i])
  }

  /** `is_full_sha256_image`: `repository@sha256:` and 64 lower-case hexadecimal digits. */
  predicate IsFullSha256Image(s: string) {
    match RSplitOnce(s, SHA256_MARK)
    case None => false
    case Some((repository, digest)) =>
      repository != "" && '@' !in repository && |digest| == 64 && AllLowerHex(digest)
  }

  /** The builder's `immutable_image` also rejects white space in the repository. */
  predicate ImmutableImage(s: string) {
    match RSplitOnce(s, SHA256_MARK)
    case None => false
    case Some((repository, digest)) =>
      && repository != "" && '@' !in repository
      && (forall i :: 0 <= i < |repository| ==> !IsWhitespace(repository[i]))
      && |digest| == 64 && AllLowerHex(digest)
  }

  /** `is_exact_wasm_component`. */
  predicate IsExactWasmComponent(s: string) {
    match StripPrefix(s, "wasm://")
    case None => false
    case Some(image) => IsFullSha256Image(image)
  }

  /** A pinned image is its repository, the mark and its digest, and nothing else splits it differently. */
  lemma PinnedImageParts(repository: string, digest: string)
    requires repository != "" && '@' !in repository && |digest| == 64 && AllLowerHex(digest)
    ensures RSplitOnce(repository + SHA256_MARK + digest, SHA256_MARK) == Some((repository, digest))
    ensures IsFullSha256Image(repository + SHA256_MARK + digest)
  {
    var s := repository + SHA256_MARK + digest;
    assert OccursAt(s, SHA256_MARK, |repository|);
    var found := RFindBelow(s, SHA256_MARK, |s| + 1);
    forall i | |repository| < i <= |s|
      ensures !OccursAt(s, SHA256_MARK, i)
    {
      if i + |SHA256_MARK| <= |s| {
        assert s[i..i + |SHA256_MARK|][0] == s[i];
        if i < |repository| + |SHA256_MARK| {
          assert s[i] == SHA256_MARK[i - |repository|];
        } else {
          assert s[i] == digest[i - |repository| - |SHA256_MARK|];
        }
        assert s[i] != '@';
      }
    }
    assert found == Some(|repository|);
    assert s[..|repository|] == repository;
    assert s[|repository| + |SHA256_MARK|..] == digest;
  }

  predicate IsFullGitCommit(s: string) {
    |s| == 40 && AllLowerHex(s)
  }

  /** `valid_identifier`. */
  predicate ValidIdentifier(s: string) {
    && s != "" && ByteLength(s) <= 64
    && (IsAsciiAlphabetic(s[0]) || s[0] == '_')
    && forall i :: 1 <= i < |s| ==> IsAsciiAlphanumeric(s[i]) || s[i] in {'_', '-'}
  }

  /** `valid_environment_name`. */
  predicate ValidEnvironmentName(s: string) {
    && s != ""
    && (IsAsciiAlphabetic(s[0]) || s[0] == '_')
    && forall i :: 1 <= i < |s| ==> IsAsciiAlphanumeric(s[i]) || s[i] == '_'
  }
}
