/** Symbolic CBOR Web Token certificates (RFC 8392) as `oak_dice` issues them.

    Encodings are symbolic: a byte string that holds a certificate, a claims set
    or a COSE key is the value it decodes to, and any other byte string decodes
    to nothing. A signature records which key it verifies under and what it
    covers, but never a private key; `variant` stands for the many signatures
    that verify for one message. */
module Certificates {
  import opened Prelude

  datatype SigningKey = SigningKey(id: nat)

  datatype VerifyingKey = VerifyingKey(id: nat)

  function Public(key: SigningKey): (r: VerifyingKey) {
    VerifyingKey(key.id)
  }

  type Digest256 = b: Bytes | |b| == 32 witness seq(32, _ => 0)

  /** The primitives the code calls but this model leaves open. */
  datatype Primitives = Primitives(
    sha256: Bytes -> Digest256,
    keyId: VerifyingKey -> string,       // hex of derive_verifying_key_id
    kemKeyId: Bytes -> string,           // hex of derive_kem_public_key_id
    coseKeyBytes: CoseKey -> Bytes,      // CBOR encoding of a COSE_Key
    sec1Bytes: VerifyingKey -> Bytes)    // SEC1 encoding of a public key

  datatype CoseKey = Ec2(point: VerifyingKey) | Okp(x: Bytes) | OtherKey

  /** A byte string viewed as a COSE_Key. */
  datatype CoseKeyBytes = EncodedKey(key: CoseKey) | NotAKey(raw: Bytes)

  /** CBOR values; `KeyBytes` is the `Value::Bytes` whose content is an encoded COSE_Key. */
  datatype Value =
    | Integer(i: int)
    | ByteString(raw: Bytes)
    | KeyBytes(key: CoseKey)
    | Text(text: string)
    | Map(entries: seq<(Value, Value)>)
    | OtherValue

  datatype Label = PrivateUse(id: int) | Assigned(number: int) | TextLabel(name: string)

  type Claims = seq<(Label, Value)>

  datatype ClaimsSet = ClaimsSet(issuer: Option<string>, subject: Option<string>, rest: Claims)

  datatype Payload = EncodedClaims(claims: ClaimsSet) | OpaquePayload(raw: Bytes)

  datatype Signature = ValidSignature(signer: VerifyingKey, contents: Option<Payload>, variant: nat) | BadSignature

  datatype CoseSign1 = CoseSign1(payload: Option<Payload>, signature: Signature)

  /** A byte string viewed as a certificate. */
  datatype CertificateBytes = EncodedCert(cert: CoseSign1) | NotACert(raw: Bytes)

  const SUBJECT_PUBLIC_KEY_ID := -4670552
  const KEY_USAGE_ID := -4670553
  const KERNEL_LAYER_ID := -4670555
  const ENCLAVE_APPLICATION_LAYER_ID := -4670556
  const SYSTEM_IMAGE_LAYER_ID := -4670557
  const CONTAINER_IMAGE_LAYER_ID := -4670559
  const KERNEL_MEASUREMENT_ID := -4670561
  const KERNEL_COMMANDLINE_ID := -4670573
  const SETUP_DATA_MEASUREMENT_ID := -4670563
  const INITRD_MEASUREMENT_ID := -4670564
  const MEMORY_MAP_MEASUREMENT_ID := -4670565
  const ACPI_MEASUREMENT_ID := -4670566
  const LAYER_2_CODE_MEASUREMENT_ID := -4670567
  const LAYER_3_CODE_MEASUREMENT_ID := -4670569
  const FINAL_LAYER_CONFIG_MEASUREMENT_ID := -4670570
  const SHA2_256_ID := -4670572
  const EVENT_ID := -4670573
  const APPLICATION_KEY_ID := -4670574
  const TRANSPARENT_EVENT_ID := -4670575

  /** `KeyUsage::KEY_CERT_SIGN` as two little-endian bytes. */
  const KEY_CERT_SIGN: Bytes := [32, 0]

  /** The claims every generated certificate starts with. */
  function KeyClaims(key: CoseKey): (r: Claims) {
    [(PrivateUse(SUBJECT_PUBLIC_KEY_ID), KeyBytes(key)), (PrivateUse(KEY_USAGE_ID), ByteString(KEY_CERT_SIGN))]
  }

  /** Names the claims builder takes: private-use ids lie below -65536, and the seven core claims have
      setters of their own. */
  predicate AcceptsName(name: Label) {
    match name
    case PrivateUse(id) => id < -65536
    case Assigned(number) => !(1 <= number <= 7)
    case TextLabel(_) => true
  }

  predicate Buildable(additional: Claims) {
    forall i: nat :: i < |additional| ==> AcceptsName(additional[i].0)
  }

  /** The certificate with these contents. */
  function CertificateOf(issuerKey: SigningKey, issuerId: string, key: CoseKey, keyId: string,
                         additional: Claims): (r: CoseSign1)
  {
    var payload := Some(EncodedClaims(ClaimsSet(Some(issuerId), Some(keyId), KeyClaims(key) + additional)));
    CoseSign1(payload, ValidSignature(Public(issuerKey), payload, 0))
  }

  function SigningCertificateOf(p: Primitives, issuerKey: SigningKey, issuerId: string,
                                key: VerifyingKey, additional: Claims): (r: CoseSign1)
  {
    CertificateOf(issuerKey, issuerId, Ec2(key), p.keyId(key), additional)
  }

  /** The builder panics on a name it does not take. */
  function GenerateCertificate(issuerKey: SigningKey, issuerId: string, key: CoseKey, keyId: string,
                               additional: Claims): (r: Outcome<CoseSign1>)
  {
    if Buildable(additional) then Ok(CertificateOf(issuerKey, issuerId, key, keyId, additional)) else Panic
  }

  function GenerateSigningCertificate(p: Primitives, issuerKey: SigningKey, issuerId: string,
                                      key: VerifyingKey, additional: Claims): (r: Outcome<CoseSign1>)
  {
    GenerateCertificate(issuerKey, issuerId, Ec2(key), p.keyId(key), additional)
  }

  function GenerateKemCertificate(p: Primitives, issuerKey: SigningKey, issuerId: string,
                                  key: Bytes, additional: Claims): (r: Outcome<CoseSign1>)
  {
    GenerateCertificate(issuerKey, issuerId, Okp(key), p.kemKeyId(key), additional)
  }

  /** `CoseSign1::verify_signature` with a P-256 key. */
  predicate VerifySignature(key: VerifyingKey, cert: CoseSign1) {
    cert.signature.ValidSignature? && cert.signature.signer == key && cert.signature.contents == cert.payload
  }

  /** `claims_set_from_serialized_cert`, and `get_claims_set_from_certificate_bytes`:
      they differ only in how a missing payload fails. */
  function ClaimsFromCertificate(bytes: CertificateBytes): (r: Outcome<ClaimsSet>) {
    match bytes
    case EncodedCert(CoseSign1(Some(EncodedClaims(claims)), _)) => Ok(claims)
    case _ => Err
  }

  /** First value under a private-use label. */
  function FindClaim(rest: Claims, id: int): (r: Option<Value>) {
    if rest == [] then None
    else if rest[0].0 == PrivateUse(id) then Some(rest[0].1)
    else FindClaim(rest[1..], id)
  }

  predicate HoldsBytes(v: Value) {
    v.ByteString? || v.KeyBytes?
  }

  /** First byte-string value under a private-use label. */
  function FindBytesClaim(rest: Claims, id: int): (r: Option<Value>)
    ensures r.Some? ==> HoldsBytes(r.value)
  {
    if rest == [] then None
    else if rest[0].0 == PrivateUse(id) && HoldsBytes(rest[0].1) then Some(rest[0].1)
    else FindBytesClaim(rest[1..], id)
  }

  /** First map value under a private-use label. */
  function FindMapClaim(rest: Claims, id: int): (r: Option<seq<(Value, Value)>>) {
    if rest == [] then None
    else if rest[0].0 == PrivateUse(id) && rest[0].1.Map? then Some(rest[0].1.entries)
    else FindMapClaim(rest[1..], id)
  }

  /** First value under an integer key of a map. */
  function FindEntry(entries: seq<(Value, Value)>, id: int): (r: Option<Value>) {
    if entries == [] then None
    else if entries[0].0 == Integer(id) then Some(entries[0].1)
    else FindEntry(entries[1..], id)
  }

  function GetPublicKeyFromClaimsSet(claims: ClaimsSet): (r: Outcome<CoseKey>) {
    match FindBytesClaim(claims.rest, SUBJECT_PUBLIC_KEY_ID)
    case Some(KeyBytes(key)) => Ok(key)
    case _ => Err
  }

  function CoseKeyToVerifyingKey(key: CoseKey): (r: Outcome<VerifyingKey>) {
    match key
    case Ec2(point) => Ok(point)
    case _ => Err
  }

  function CoseKeyToHpkePublicKey(key: CoseKey): (r: Outcome<Bytes>)
    ensures !r.Panic?
  {
    match key
    case Okp(x) => Ok(x)
    case _ => Err
  }

  /** The bytes of a byte-string value. */
  function RawBytes(p: Primitives, v: Value): (r: Bytes)
    requires HoldsBytes(v)
  {
    if v.ByteString? then v.raw else p.coseKeyBytes(v.key)
  }

  /** A claim holding one SHA2-256 digest. */
  function DigestMap(digest: Bytes): (r: Value) {
    Map([(Integer(SHA2_256_ID), ByteString(digest))])
  }

  /** Claims that come before the one searched for do not matter. */
  lemma {:induction false} FindClaimSkips(before: Claims, after: Claims, id: int)
    requires forall c :: c in before ==> c.0 != PrivateUse(id)
    ensures FindClaim(before + after, id) == FindClaim(after, id)
  {
    if before == [] {
      assert before + after == after;
    } else {
      assert (before + after)[1..] == before[1..] + after;
      FindClaimSkips(before[1..], after, id);
    }
  }

  lemma {:induction false} FindMapClaimSkips(before: Claims, after: Claims, id: int)
    requires forall c :: c in before ==> c.0 != PrivateUse(id) || !c.1.Map?
    ensures FindMapClaim(before + after, id) == FindMapClaim(after, id)
  {
    if before == [] {
      assert before + after == after;
    } else {
      assert (before + after)[1..] == before[1..] + after;
      FindMapClaimSkips(before[1..], after, id);
    }
  }

  /** A certificate that can be generated certifies the key it was made for: additional
      claims come after the subject key and cannot replace it. */
  lemma GeneratedCertificateCertifies(issuerKey: SigningKey, issuerId: string, key: CoseKey, keyId: string,
                                      additional: Claims)
    ensures GenerateCertificate(issuerKey, issuerId, key, keyId, additional).Ok? <==> Buildable(additional)
    ensures var cert := CertificateOf(issuerKey, issuerId, key, keyId, additional);
      && (Buildable(additional) ==> GenerateCertificate(issuerKey, issuerId, key, keyId, additional) == Ok(cert))
      && ClaimsFromCertificate(EncodedCert(cert)).Ok?
      && (var claims := ClaimsFromCertificate(EncodedCert(cert)).value;
          && GetPublicKeyFromClaimsSet(claims) == Ok(key)
          && claims.subject == Some(keyId) && claims.issuer == Some(issuerId)
          && FindBytesClaim(claims.rest, KEY_USAGE_ID) == Some(ByteString([32, 0]))
          && claims.rest == KeyClaims(key) + additional)
    ensures forall k :: VerifySignature(k, CertificateOf(issuerKey, issuerId, key, keyId, additional))
                        <==> k == Public(issuerKey)
  {
    var rest := KeyClaims(key) + additional;
    assert rest[0] == (PrivateUse(SUBJECT_PUBLIC_KEY_ID), KeyBytes(key));
    assert rest[1..][0] == (PrivateUse(KEY_USAGE_ID), ByteString([32, 0]));
  }
}
