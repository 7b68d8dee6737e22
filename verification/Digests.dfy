/** Digest messages and when two of them match. */
module Digests {
  import opened Prelude

  /** One optional digest per algorithm; an empty field is absent. */
  datatype RawDigest = RawDigest(
    psha2: Bytes, sha1: Bytes, sha2_256: Bytes, sha2_512: Bytes, sha3_512: Bytes,
    sha3_384: Bytes, sha3_256: Bytes, sha3_224: Bytes, sha2_384: Bytes)

  const EMPTY := RawDigest([], [], [], [], [], [], [], [], [])

  function Sha256Digest(digest: Bytes): (r: RawDigest) {
    EMPTY.(sha2_256 := digest)
  }

  function Sha384Digest(digest: Bytes): (r: RawDigest) {
    EMPTY.(sha2_384 := digest)
  }

  function Fields(d: RawDigest): (r: seq<Bytes>)
    ensures |r| == 9
  {
    [d.psha2, d.sha1, d.sha2_256, d.sha2_512, d.sha3_512, d.sha3_384, d.sha3_256, d.sha3_224, d.sha2_384]
  }

  datatype MatchResult = Same | Different | Undecidable | Contradictory

  /** Both sides carry a digest for algorithm `i`. */
  predicate Comparable(a: RawDigest, b: RawDigest, i: nat)
    requires i < 9
  {
    Fields(a)[i] != [] && Fields(b)[i] != []
  }

  /** Some algorithm on both sides agrees. */
  ghost predicate Agree(a: RawDigest, b: RawDigest) {
    exists i: nat :: i < 9 && Comparable(a, b, i) && Fields(a)[i] == Fields(b)[i]
  }

  /** Some algorithm on both sides disagrees. */
  ghost predicate Disagree(a: RawDigest, b: RawDigest) {
    exists i: nat :: i < 9 && Comparable(a, b, i) && Fields(a)[i] != Fields(b)[i]
  }

  /** Counts agreeing and disagreeing algorithms. Hex encoding is injective and maps
      only the empty string to the empty string, so raw bytes are compared. */
  method GetRawDigestMatch(a: RawDigest, b: RawDigest) returns (r: MatchResult)
    ensures r == if Agree(a, b) then (if Disagree(a, b) then Contradictory else Same)
                 else (if Disagree(a, b) then Different else Undecidable)
  {
    var same, different := 0, 0;
    for i := 0 to 9
      invariant same > 0 <==> exists j: nat :: j < i && Comparable(a, b, j) && Fields(a)[j] == Fields(b)[j]
      invariant different > 0 <==> exists j: nat :: j < i && Comparable(a, b, j) && Fields(a)[j] != Fields(b)[j]
      invariant same >= 0 && different >= 0
    {
      if Comparable(a, b, i) {
        if Fields(a)[i] == Fields(b)[i] {
          same := same + 1;
        } else {
          different := different + 1;
        }
      }
    }
    if same > 0 {
      r := if different > 0 then Contradictory else Same;
    } else {
      r := if different > 0 then Different else Undecidable;
    }
  }

  /** `is_raw_digest_match(...).is_ok()`. */
  predicate Matches(actual: RawDigest, expected: RawDigest) {
    && (exists i: nat :: i < 9 && Comparable(actual, expected, i) && Fields(actual)[i] == Fields(expected)[i])
    && (forall i: nat :: i < 9 && Comparable(actual, expected, i) ==> Fields(actual)[i] == Fields(expected)[i])
  }

  method IsRawDigestMatch(actual: RawDigest, expected: RawDigest) returns (r: bool)
    ensures r == Matches(actual, expected)
  {
    var result := GetRawDigestMatch(actual, expected);
    r := result == Same;
  }

  predicate AgreeOn(a: Bytes, b: Bytes) {
    a != [] && a == b
  }

  predicate ConflictOn(a: Bytes, b: Bytes) {
    a != [] && b != [] && a != b
  }

  predicate AnyAgree(a: RawDigest, b: RawDigest) {
    || AgreeOn(a.psha2, b.psha2) || AgreeOn(a.sha1, b.sha1) || AgreeOn(a.sha2_256, b.sha2_256)
    || AgreeOn(a.sha2_512, b.sha2_512) || AgreeOn(a.sha3_512, b.sha3_512) || AgreeOn(a.sha3_384, b.sha3_384)
    || AgreeOn(a.sha3_256, b.sha3_256) || AgreeOn(a.sha3_224, b.sha3_224) || AgreeOn(a.sha2_384, b.sha2_384)
  }

  predicate AnyConflict(a: RawDigest, b: RawDigest) {
    || ConflictOn(a.psha2, b.psha2) || ConflictOn(a.sha1, b.sha1) || ConflictOn(a.sha2_256, b.sha2_256)
    || ConflictOn(a.sha2_512, b.sha2_512) || ConflictOn(a.sha3_512, b.sha3_512) || ConflictOn(a.sha3_384, b.sha3_384)
    || ConflictOn(a.sha3_256, b.sha3_256) || ConflictOn(a.sha3_224, b.sha3_224) || ConflictOn(a.sha2_384, b.sha2_384)
  }

  /** Some algorithm that both messages carry agrees, and none conflicts. */
  predicate SameArtifact(a: RawDigest, b: RawDigest) {
    AnyAgree(a, b) && !AnyConflict(a, b)
  }

  lemma FieldsByName(d: RawDigest)
    ensures var f := Fields(d);
      && f[0] == d.psha2 && f[1] == d.sha1 && f[2] == d.sha2_256 && f[3] == d.sha2_512 && f[4] == d.sha3_512
      && f[5] == d.sha3_384 && f[6] == d.sha3_256 && f[7] == d.sha3_224 && f[8] == d.sha2_384
  {
  }

  lemma FieldsCompare(a: RawDigest, b: RawDigest, i: nat)
    requires i < 9
    ensures AgreeOn(Fields(a)[i], Fields(b)[i]) <==> Comparable(a, b, i) && Fields(a)[i] == Fields(b)[i]
    ensures ConflictOn(Fields(a)[i], Fields(b)[i]) <==> Comparable(a, b, i) && Fields(a)[i] != Fields(b)[i]
  {
  }

  lemma ByName(a: RawDigest, b: RawDigest)
    ensures Agree(a, b) <==> AnyAgree(a, b)
    ensures Disagree(a, b) <==> AnyConflict(a, b)
  {
    hide Fields, Comparable, AgreeOn, ConflictOn;
    FieldsByName(a);
    FieldsByName(b);
    forall i: nat | i < 9
      ensures AgreeOn(Fields(a)[i], Fields(b)[i]) <==> Comparable(a, b, i) && Fields(a)[i] == Fields(b)[i]
      ensures ConflictOn(Fields(a)[i], Fields(b)[i]) <==> Comparable(a, b, i) && Fields(a)[i] != Fields(b)[i]
    {
      FieldsCompare(a, b, i);
    }
  }

  lemma MatchesExactly(actual: RawDigest, expected: RawDigest)
    ensures Matches(actual, expected) <==> SameArtifact(actual, expected)
  {
    hide Fields, Comparable, AnyAgree, AnyConflict;
    ByName(actual, expected);
  }

  /** A lone SHA2-256 digest matches exactly the expectations that carry it. */
  lemma Sha256Matches(digest: Bytes, expected: RawDigest)
    ensures Matches(Sha256Digest(digest), expected) <==> digest != [] && expected.sha2_256 == digest
  {
    var fields := Fields(Sha256Digest(digest));
    assert fields[2] == digest && Fields(expected)[2] == expected.sha2_256;
    assert forall i: nat :: i < 9 && i != 2 ==> fields[i] == [];
  }

  /** The same for a lone SHA2-384 digest. */
  lemma Sha384Matches(digest: Bytes, expected: RawDigest)
    ensures Matches(Sha384Digest(digest), expected) <==> digest != [] && expected.sha2_384 == digest
  {
    var fields := Fields(Sha384Digest(digest));
    assert fields[8] == digest && Fields(expected)[8] == expected.sha2_384;
    assert forall i: nat :: i < 9 && i != 8 ==> fields[i] == [];
  }
}
