/** The two ways to verify a Confidential Space workload: the event policy
    generated from reference values, and the assertion verifier that reads the
    same reference values itself. */
module ConfidentialSpace {
  import opened Prelude
  import opened Jwt
  import Utf8

  // ---------- Messages ----------

  type EndorsementReferenceValue = Bytes
  type Statement = Bytes

  /** A protobuf message with no fields set is the default one. */
  datatype SignedEndorsement = SignedEndorsement(endorsement: Bytes, signature: Bytes)

  const DEFAULT_SIGNED_ENDORSEMENT := SignedEndorsement([], [])

  datatype Endorsement = Endorsement(jwtToken: string, workloadEndorsement: Option<SignedEndorsement>)

  datatype Assertion = Assertion(jwtToken: Bytes, containerImageEndorsement: Option<Endorsement>)

  datatype BinaryReferenceValue =
    | EndorsementReference(value: EndorsementReferenceValue)
    | Skip
    | Digests(digests: seq<Bytes>)
    | MissingType

  datatype ContainerImage =
    | CosignReferenceValues(developerPublicKey: Option<Bytes>, rekorPublicKey: Option<Bytes>)
    | ContainerImageReferencePrefix(prefix: string)
    | ImageReferenceValue(value: BinaryReferenceValue)

  datatype ReferenceValues = ReferenceValues(rootCertificatePem: string, containerImage: Option<ContainerImage>)

  /** An OCI image reference; `name` is everything but the digest. */
  datatype OciReference = OciReference(name: string, digest: Option<string>)

  datatype Digest = Sha256(hash: Bytes) | OtherDigest(hash: Bytes)

  /** Parsers and checks of other crates. */
  datatype Library = Library(
    x509: X509,
    certificateFromPem: string -> Option<Certificate>,
    parseToken: string -> Option<Token>,
    decodeEvent: Bytes -> Option<Bytes>,
    decodeVariant: Bytes -> Option<Endorsement>,
    decodeAssertion: Bytes -> Option<Assertion>,
    parseReference: string -> Option<OciReference>,
    wholeReference: OciReference -> string,
    fromTypedHash: string -> Option<Digest>,
    sha256Hex: Bytes -> string,
    cosignReference: (Bytes, Option<Bytes>) -> EndorsementReferenceValue,
    verifyEndorsement: (Instant, SignedEndorsement, EndorsementReferenceValue) -> Option<Statement>,
    hasSubjectDigest: (Statement, Digest) -> bool)

  /** The audience of tokens bound to a Noise session. */
  const OAK_SESSION_NOISE_V1_AUDIENCE := "d9b8d46d-6841-4825-9b5e-e77768638044"

  /** `effective_reference`: the claimed reference with the claimed digest put in. */
  function EffectiveReference(lib: Library, claims: Claims): (r: Outcome<OciReference>) {
    var reference :- OkOr(lib.parseReference(claims.imageReference));
    Ok(reference.(digest := Some(claims.imageDigest)))
  }

  /** `verify_endorsement_wrapper`. */
  function VerifyEndorsementWrapper(lib: Library, time: Instant, image: OciReference, endorsement: SignedEndorsement,
                                    value: BinaryReferenceValue): (r: Outcome<()>)
    ensures r == Ok(()) || r == Err
  {
    var typedHash :- OkOr(image.digest);
    var digest :- OkOr(lib.fromTypedHash(typedHash));
    match value
    case EndorsementReference(v) =>
      var statement :- OkOr(lib.verifyEndorsement(time, endorsement, v));
      Ensure(lib.hasSubjectDigest(statement, digest))
    case Skip => Ok(())
    case Digests(digests) => if digest.Sha256? then Ensure(digest.hash in digests) else Err
    case MissingType => Err
  }

  // ---------- The policy ----------

  datatype WorkloadReferenceValues = ImageValue(value: BinaryReferenceValue) | ImagePrefix(prefix: string)

  datatype Policy = Policy(root: Certificate, workload: Option<WorkloadReferenceValues>)

  /** `confidential_space_policy_from_reference_values`. */
  function PolicyFromReferenceValues(lib: Library, refs: ReferenceValues): (r: Outcome<Policy>) {
    var root :- OkOr(lib.certificateFromPem(refs.rootCertificatePem));
    match refs.containerImage
    case Some(CosignReferenceValues(developerKey, rekorKey)) =>
      var endorserKey :- OkOr(developerKey);
      Ok(Policy(root, Some(ImageValue(EndorsementReference(lib.cosignReference(endorserKey, rekorKey))))))
    case Some(ContainerImageReferencePrefix(prefix)) => Ok(Policy(root, Some(ImagePrefix(prefix))))
    case Some(ImageReferenceValue(value)) => Ok(Policy(root, Some(ImageValue(value))))
    case None => Ok(Policy(root, None))
  }

  datatype Report = Report(sessionBindingPublicKey: Bytes, publicKeyVerification: Outcome<()>,
                           workloadVerification: Option<Outcome<()>>, tokenReport: TokenReport)

  function VerifyClaimsPublicKey(lib: Library, claims: Claims, key: Bytes): (r: Outcome<()>) {
    if claims.eatNonce != lib.sha256Hex(key) then Err else Ok(())
  }

  function VerifyWorkload(lib: Library, time: Instant, image: OciReference, workload: WorkloadReferenceValues,
                          endorsement: Option<SignedEndorsement>): (r: Outcome<()>)
  {
    match workload
    case ImageValue(value) =>
      (match endorsement
       case Some(e) => VerifyEndorsementWrapper(lib, time, image, e, value)
       case None => Err)
    case ImagePrefix(prefix) => Ensure(prefix <= lib.wholeReference(image))
  }

  /** `ConfidentialSpacePolicy::report`. */
  function PolicyReport(lib: Library, policy: Policy, time: Instant, evidence: Bytes, variant: Bytes): (r: Outcome<Report>) {
    var key :- OkOr(lib.decodeEvent(evidence));
    var endorsement :- OkOr(lib.decodeVariant(variant));
    var token :- OkOr(lib.parseToken(endorsement.jwtToken));
    var image :- EffectiveReference(lib, token.claims);
    Ok(Report(
      key,
      VerifyClaimsPublicKey(lib, token.claims, key),
      match policy.workload
      case Some(workload) => Some(VerifyWorkload(lib, time, image, workload, endorsement.workloadEndorsement))
      case None => None,
      Jwt.Report(lib.x509, token, policy.root, time, OAK_SESSION_NOISE_V1_AUDIENCE)))
  }

  /** `into_session_binding_public_key`. */
  function SessionBindingPublicKey(report: Report): (r: Outcome<Bytes>) {
    var _ :- report.publicKeyVerification;
    var _ :- if report.workloadVerification.Some? then report.workloadVerification.value else Ok(());
    var _ :- CheckedToken(report.tokenReport);
    Ok(report.sessionBindingPublicKey)
  }

  /** `ConfidentialSpacePolicy::verify`; the key is the only artifact of the result. */
  function PolicyVerify(lib: Library, policy: Policy, time: Instant, evidence: Bytes, variant: Bytes): (r: Outcome<Bytes>) {
    var report :- PolicyReport(lib, policy, time, evidence, variant);
    SessionBindingPublicKey(report)
  }

  // ---------- The assertion verifier ----------

  /** `verify_endorsed_container_image`: without any endorsement a default one is checked. */
  function VerifyEndorsedContainerImage(lib: Library, time: Instant, image: OciReference, value: BinaryReferenceValue,
                                        endorsement: Option<Endorsement>): (r: Outcome<()>)
  {
    match endorsement
    case None => VerifyEndorsementWrapper(lib, time, image, DEFAULT_SIGNED_ENDORSEMENT, value)
    case Some(e) =>
      match e.workloadEndorsement
      case None => Err
      case Some(signed) => VerifyEndorsementWrapper(lib, time, image, signed, value)
  }

  function VerifyContainerImage(lib: Library, time: Instant, image: OciReference, refs: ReferenceValues,
                                endorsement: Option<Endorsement>): (r: Outcome<()>)
  {
    match refs.containerImage
    case None => Ok(())
    case Some(CosignReferenceValues(developerKey, rekorKey)) =>
      var endorserKey :- OkOr(developerKey);
      VerifyEndorsedContainerImage(lib, time, image, EndorsementReference(lib.cosignReference(endorserKey, rekorKey)),
                                   endorsement)
    case Some(ContainerImageReferencePrefix(prefix)) => Ensure(prefix <= lib.wholeReference(image))
    case Some(ImageReferenceValue(value)) => VerifyEndorsedContainerImage(lib, time, image, value, endorsement)
  }

  /** `GcpAssertionVerifier::verify`. */
  function AssertionVerify(lib: Library, audience: string, refs: ReferenceValues, content: Bytes, assertedData: Bytes,
                           time: Instant): (r: Outcome<()>)
  {
    var assertion :- OkOr(lib.decodeAssertion(content));
    var jwt :- OkOr(Utf8.Decode(assertion.jwtToken));
    var token :- OkOr(lib.parseToken(jwt));
    var root :- OkOr(lib.certificateFromPem(refs.rootCertificatePem));
    var image :- EffectiveReference(lib, token.claims);
    var _ :- VerifyContainerImage(lib, time, image, refs, assertion.containerImageEndorsement);
    var checked :- CheckedToken(Jwt.Report(lib.x509, token, root, time, audience));
    if checked.claims.eatNonce != lib.sha256Hex(assertedData) then Err else Ok(())
  }

  // ---------- The two agree ----------

  /** Generating the policy and running it. */
  function GeneratedPolicyVerify(lib: Library, refs: ReferenceValues, time: Instant, evidence: Bytes, variant: Bytes)
    : (r: Outcome<Bytes>)
  {
    var policy :- PolicyFromReferenceValues(lib, refs);
    PolicyVerify(lib, policy, time, evidence, variant)
  }

  /** What acceptance by either verifier comes to, given the endorsement of the image. */
  ghost predicate Acceptable(lib: Library, refs: ReferenceValues, time: Instant, audience: string, jwt: string, key: Bytes,
                       endorsement: Option<SignedEndorsement>)
  {
    && lib.certificateFromPem(refs.rootCertificatePem).Some?
    && lib.parseToken(jwt).Some?
    && var token := lib.parseToken(jwt).value;
    && TokenAccepted(lib.x509, token, lib.certificateFromPem(refs.rootCertificatePem).value, time, audience)
    && token.claims.eatNonce == lib.sha256Hex(key)
    && lib.parseReference(token.claims.imageReference).Some?
    && ImageAcceptable(lib, time, refs, endorsement,
                       lib.parseReference(token.claims.imageReference).value.(digest := Some(token.claims.imageDigest)))
  }

  /** What a reference value demands of an image and its endorsement. */
  ghost predicate Endorsed(lib: Library, time: Instant, image: OciReference, endorsement: SignedEndorsement,
                           value: BinaryReferenceValue)
  {
    exists digest: Digest ::
      && image.digest.Some? && lib.fromTypedHash(image.digest.value) == Some(digest)
      && (|| value.Skip?
          || (value.Digests? && exists i: nat :: i < |value.digests| && digest == Sha256(value.digests[i]))
          || (value.EndorsementReference? && exists statement: Statement ::
                lib.verifyEndorsement(time, endorsement, value.value) == Some(statement)
                && lib.hasSubjectDigest(statement, digest)))
  }

  lemma EndorsedExactly(lib: Library, time: Instant, image: OciReference, endorsement: SignedEndorsement,
                        value: BinaryReferenceValue)
    ensures VerifyEndorsementWrapper(lib, time, image, endorsement, value)
         == if Endorsed(lib, time, image, endorsement, value) then Ok(()) else Err
  {
    if image.digest.Some? && lib.fromTypedHash(image.digest.value).Some? {
      var digest := lib.fromTypedHash(image.digest.value).value;
      if value.Digests? && digest.Sha256? && digest.hash in value.digests {
        var i: nat :| i < |value.digests| && value.digests[i] == digest.hash;
        assert digest == Sha256(value.digests[i]);
      }
    }
  }

  /** The image the claims name meets the reference values, given an endorsement. */
  ghost predicate ImageAcceptable(lib: Library, time: Instant, refs: ReferenceValues, endorsement: Option<SignedEndorsement>,
                            image: OciReference)
  {
    match refs.containerImage
    case None => true
    case Some(ContainerImageReferencePrefix(prefix)) => prefix <= lib.wholeReference(image)
    case Some(CosignReferenceValues(developerKey, rekorKey)) =>
      developerKey.Some? && endorsement.Some?
      && Endorsed(lib, time, image, endorsement.value,
                  EndorsementReference(lib.cosignReference(developerKey.value, rekorKey)))
    case Some(ImageReferenceValue(value)) =>
      endorsement.Some? && Endorsed(lib, time, image, endorsement.value, value)
  }

  lemma PolicyAcceptsExactly(lib: Library, refs: ReferenceValues, time: Instant, evidence: Bytes, variant: Bytes,
                             key: Bytes, e: Endorsement)
    requires lib.decodeEvent(evidence) == Some(key) && lib.decodeVariant(variant) == Some(e)
    ensures GeneratedPolicyVerify(lib, refs, time, evidence, variant)
         == if Acceptable(lib, refs, time, OAK_SESSION_NOISE_V1_AUDIENCE, e.jwtToken, key, e.workloadEndorsement)
            then Ok(key) else Err
  {
    hide TokenAccepted, CheckedToken, Jwt.Report, VerifyEndorsementWrapper, Endorsed;
    forall image: OciReference, signed: SignedEndorsement, value: BinaryReferenceValue
      ensures VerifyEndorsementWrapper(lib, time, image, signed, value)
           == if Endorsed(lib, time, image, signed, value) then Ok(()) else Err
    {
      EndorsedExactly(lib, time, image, signed, value);
    }
    if lib.certificateFromPem(refs.rootCertificatePem).Some? && lib.parseToken(e.jwtToken).Some? {
      TokenAcceptedExactly(lib.x509, lib.parseToken(e.jwtToken).value,
                           lib.certificateFromPem(refs.rootCertificatePem).value, time, OAK_SESSION_NOISE_V1_AUDIENCE);
    }
  }

  lemma AssertionAcceptsExactly(lib: Library, audience: string, refs: ReferenceValues, content: Bytes, key: Bytes,
                                time: Instant, jwt: string, assertion: Assertion)
    requires lib.decodeAssertion(content) == Some(assertion) && Utf8.Decode(assertion.jwtToken) == Some(jwt)
    ensures var e := if assertion.containerImageEndorsement.Some?
                     then assertion.containerImageEndorsement.value.workloadEndorsement
                     else Some(DEFAULT_SIGNED_ENDORSEMENT);
      AssertionVerify(lib, audience, refs, content, key, time)
      == if Acceptable(lib, refs, time, audience, jwt, key, e)
         then Ok(()) else Err
  {
    hide TokenAccepted, CheckedToken, Jwt.Report, VerifyEndorsementWrapper, Endorsed;
    forall image: OciReference, signed: SignedEndorsement, value: BinaryReferenceValue
      ensures VerifyEndorsementWrapper(lib, time, image, signed, value)
           == if Endorsed(lib, time, image, signed, value) then Ok(()) else Err
    {
      EndorsedExactly(lib, time, image, signed, value);
    }
    if lib.certificateFromPem(refs.rootCertificatePem).Some? && lib.parseToken(jwt).Some? {
      TokenAcceptedExactly(lib.x509, lib.parseToken(jwt).value,
                           lib.certificateFromPem(refs.rootCertificatePem).value, time, audience);
    }
  }

  /** Agreement: on the same reference values, time, token and endorsement, in the session's audience and
      with the bound key as asserted data, one accepts exactly when the other does. A policy that cannot
      be generated counts as one that rejects. */
  lemma VerifiersAgree(lib: Library, refs: ReferenceValues, time: Instant, evidence: Bytes, variant: Bytes,
                       content: Bytes, key: Bytes, e: Endorsement)
    requires lib.decodeEvent(evidence) == Some(key) && lib.decodeVariant(variant) == Some(e)
    requires lib.decodeAssertion(content) == Some(Assertion(Utf8.Encode(e.jwtToken), Some(e)))
    ensures GeneratedPolicyVerify(lib, refs, time, evidence, variant) == Ok(key)
       <==> AssertionVerify(lib, OAK_SESSION_NOISE_V1_AUDIENCE, refs, content, key, time) == Ok(())
    ensures GeneratedPolicyVerify(lib, refs, time, evidence, variant) in {Ok(key), Err}
  {
    hide GeneratedPolicyVerify, AssertionVerify, Acceptable;
    Utf8.DecodeEncoded(e.jwtToken);
    PolicyAcceptsExactly(lib, refs, time, evidence, variant, key, e);
    AssertionAcceptsExactly(lib, OAK_SESSION_NOISE_V1_AUDIENCE, refs, content, key, time, e.jwtToken,
                            Assertion(Utf8.Encode(e.jwtToken), Some(e)));
  }

  /** Reference values that the policy checks against a workload endorsement. */
  predicate NeedsEndorsement(refs: ReferenceValues) {
    refs.containerImage.Some? && !refs.containerImage.value.ContainerImageReferencePrefix?
  }

  /** Without an endorsement they agree exactly when the reference values need none or the assertion
      verifier rejects anyway: it checks a default endorsement where the policy reports a missing one. */
  lemma AgreementWithoutEndorsement(lib: Library, refs: ReferenceValues, time: Instant, evidence: Bytes, variant: Bytes,
                                    content: Bytes, key: Bytes, jwt: string)
    requires lib.decodeEvent(evidence) == Some(key) && lib.decodeVariant(variant) == Some(Endorsement(jwt, None))
    requires lib.decodeAssertion(content) == Some(Assertion(Utf8.Encode(jwt), None))
    ensures GeneratedPolicyVerify(lib, refs, time, evidence, variant) == Ok(key)
       <==> AssertionVerify(lib, OAK_SESSION_NOISE_V1_AUDIENCE, refs, content, key, time) == Ok(())
            && !NeedsEndorsement(refs)
  {
    hide GeneratedPolicyVerify, AssertionVerify, TokenAccepted, Endorsed;
    Utf8.DecodeEncoded(jwt);
    PolicyAcceptsExactly(lib, refs, time, evidence, variant, key, Endorsement(jwt, None));
    AssertionAcceptsExactly(lib, OAK_SESSION_NOISE_V1_AUDIENCE, refs, content, key, time, jwt,
                            Assertion(Utf8.Encode(jwt), None));
  }

  /** They do part ways: for a `Skip` reference value, on every assertion without endorsement whose token is
      good and whose digest parses. */
  lemma SkipWithoutEndorsementParts(lib: Library, pem: string, time: Instant, evidence: Bytes, variant: Bytes,
                                    content: Bytes, key: Bytes, jwt: string)
    requires lib.decodeEvent(evidence) == Some(key) && lib.decodeVariant(variant) == Some(Endorsement(jwt, None))
    requires lib.decodeAssertion(content) == Some(Assertion(Utf8.Encode(jwt), None))
    requires Acceptable(lib, ReferenceValues(pem, None), time, OAK_SESSION_NOISE_V1_AUDIENCE, jwt, key, None)
    requires lib.fromTypedHash(lib.parseToken(jwt).value.claims.imageDigest).Some?
    ensures var refs := ReferenceValues(pem, Some(ImageReferenceValue(Skip)));
      && AssertionVerify(lib, OAK_SESSION_NOISE_V1_AUDIENCE, refs, content, key, time) == Ok(())
      && GeneratedPolicyVerify(lib, refs, time, evidence, variant) == Err
  {
    hide GeneratedPolicyVerify, AssertionVerify, TokenAccepted;
    var refs := ReferenceValues(pem, Some(ImageReferenceValue(Skip)));
    Utf8.DecodeEncoded(jwt);
    PolicyAcceptsExactly(lib, refs, time, evidence, variant, key, Endorsement(jwt, None));
    AssertionAcceptsExactly(lib, OAK_SESSION_NOISE_V1_AUDIENCE, refs, content, key, time, jwt,
                            Assertion(Utf8.Encode(jwt), None));
  }
}
