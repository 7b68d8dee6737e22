/** The attestation pipeline from end to end: attester, chain verification,
    extraction and comparison. */
module EndToEnd {
  import opened Prelude
  import opened Certificates
  import opened EvidenceTypes
  import opened Dice
  import opened DiceRuns
  import opened Digests
  import Extract
  import opened Verifier
  import opened ChainTheorems
  import opened Compare

  // ---------- Application keys ----------

  /** Everything a caller passes to `add_application_keys`. */
  datatype KeyRequest = KeyRequest(
    layerData: LayerData, kemKey: Bytes, key: VerifyingKey, groupKemKey: Option<Bytes>, groupKey: Option<VerifyingKey>)

  function WithKeys(p: Primitives, s: AttesterState, k: KeyRequest): (r: Outcome<Evidence>) {
    AddApplicationKeys(p, s, k.layerData, k.kemKey, k.key, k.groupKemKey, k.groupKey)
  }

  /** Issued by the subject of the last layer, under the current key and no other. */
  ghost predicate IssuedByHolder(p: Primitives, s: AttesterState, bytes: CertificateBytes) {
    && (forall k :: SignedBy(k, bytes) <==> k == Public(s.signingKey))
    && ClaimsFromCertificate(bytes).Ok?
    && ClaimsFromCertificate(bytes).value.issuer == Some(p.keyId(Public(s.signingKey)))
  }

  /** The certificate's subject key. */
  ghost predicate Certifies(bytes: CertificateBytes, key: CoseKey) {
    ClaimsFromCertificate(bytes).Ok? && GetPublicKeyFromClaimsSet(ClaimsFromCertificate(bytes).value) == Ok(key)
  }

  /** Application keys round trip: whatever additional claims the caller adds, as long as the builder takes
      their names, extraction returns the two keys that were passed in, and nothing else in the
      evidence changes. Group keys are certified in the same way, without the additional claims.
      Without any layer the call is an error, with other names it panics. */
  lemma ApplicationKeysRoundTrip(p: Primitives, s: AttesterState, k: KeyRequest)
    requires Linked(p, s)
    ensures WithKeys(p, s, k).Err? <==> s.evidence.layers == []
    ensures WithKeys(p, s, k).Panic? <==> s.evidence.layers != [] && !Buildable(k.layerData.additionalClaims)
    ensures WithKeys(p, s, k).Ok? ==>
      (var e := WithKeys(p, s, k).value;
       && e == s.evidence.(applicationKeys := e.applicationKeys)
       && e.applicationKeys.Some?
       && (var keys := e.applicationKeys.value;
           && Extract.ExtractApplicationKeyValues(p, keys)
              == Ok(Extract.ApplicationKeyValues(k.kemKey, p.sec1Bytes(k.key)))
           && IssuedByHolder(p, s, keys.encryption) && IssuedByHolder(p, s, keys.signing)
           && (if k.groupKemKey.Some?
               then IssuedByHolder(p, s, keys.groupEncryption) && Certifies(keys.groupEncryption, Okp(k.groupKemKey.value))
               else keys.groupEncryption == NotACert([]))
           && (if k.groupKey.Some?
               then IssuedByHolder(p, s, keys.groupSigning) && Certifies(keys.groupSigning, Ec2(k.groupKey.value))
               else keys.groupSigning == NotACert([]))))
  {
    if s.evidence.layers != [] {
      var issuer, extra := p.keyId(Public(s.signingKey)), k.layerData.additionalClaims;
      GeneratedCertificateCertifies(s.signingKey, issuer, Okp(k.kemKey), p.kemKeyId(k.kemKey), extra);
      GeneratedCertificateCertifies(s.signingKey, issuer, Ec2(k.key), p.keyId(k.key), extra);
      if k.groupKemKey.Some? {
        GeneratedCertificateCertifies(s.signingKey, issuer, Okp(k.groupKemKey.value), p.kemKeyId(k.groupKemKey.value), []);
      }
      if k.groupKey.Some? {
        GeneratedCertificateCertifies(s.signingKey, issuer, Ec2(k.groupKey.value), p.keyId(k.groupKey.value), []);
      }
    }
  }

  /** `e` is the evidence of a run from `s`, closed with the application keys of `k`. */
  ghost predicate Closes(p: Primitives, s: AttesterState, steps: seq<Step>, k: KeyRequest, e: Evidence) {
    Run(p, s, steps).Ok? && WithKeys(p, Run(p, s, steps).value, k) == Ok(e)
  }

  /** Every run with at least one extension can be closed, with any claims the builder takes. */
  lemma RunsCanBeClosed(p: Primitives, s: AttesterState, steps: seq<Step>, k: KeyRequest)
    requires RootOnly(s)
    ensures Run(p, s, steps).Ok?
    ensures (exists e :: Closes(p, s, steps, k, e)) <==> steps != [] && Buildable(k.layerData.additionalClaims)
  {
    hide Run, WithKeys, Linked, LayerOf, Extract.ExtractApplicationKeyValues, IssuedByHolder;
    RootOnlyIsLinked(p, s);
    RunClosedForm(p, s, steps);
    var t := RunResult(p, s, steps);
    assert t.evidence.layers == IssuedLayers(p, s.signingKey, steps);
    ApplicationKeysRoundTrip(p, t, k);
    assert WithKeys(p, t, k).Ok? ==> Closes(p, s, steps, k, WithKeys(p, t, k).value);
  }

  /** What the evidence of a closed run looks like. */
  lemma ClosedRunShape(p: Primitives, s: AttesterState, steps: seq<Step>, k: KeyRequest, e: Evidence)
    requires RootOnly(s) && Closes(p, s, steps, k, e)
    ensures e.rootLayer == s.evidence.rootLayer && e.rootLayer.Some? && RootKey(e) == Ok(Public(s.signingKey))
    ensures e.layers == IssuedLayers(p, s.signingKey, steps)
    ensures e.eventLog.Some? && Events(e.eventLog) == OriginalEvents(steps)
    ensures e.applicationKeys.Some?
    ensures var keys, t := e.applicationKeys.value, RunResult(p, s, steps);
      && Extract.ExtractApplicationKeyValues(p, keys) == Ok(Extract.ApplicationKeyValues(k.kemKey, p.sec1Bytes(k.key)))
      && IssuedByHolder(p, t, keys.encryption) && IssuedByHolder(p, t, keys.signing)
  {
    hide Run, WithKeys, Linked, LayerOf, RootKey, Extract.ExtractApplicationKeyValues, IssuedByHolder;
    RootOnlyIsLinked(p, s);
    RunClosedForm(p, s, steps);
    var t := RunResult(p, s, steps);
    ApplicationKeysRoundTrip(p, t, k);
    SameRootLayerSameKey(s.evidence, e);
    assert [] + IssuedLayers(p, s.signingKey, steps) == IssuedLayers(p, s.signingKey, steps);
    assert [] + OriginalEvents(steps) == OriginalEvents(steps);
  }

  /** Evidence of a run closed with application keys passes the chain verifier, so the
      verifier's answer is that of extraction. */
  lemma HonestEvidenceIsAccepted(p: Primitives, d: Extract.Decoders, s: AttesterState, steps: seq<Step>, k: KeyRequest,
                                 e: Evidence)
    requires RootOnly(s) && Closes(p, s, steps, k, e)
    ensures VerifyAndExtract(p, d, e) == Extract.ExtractEvidence(p, d, e)
  {
    hide Extract.ExtractEvidence, VerifyLayers, LogIsCaptured, LayerOf, RootKey, Closes, RootOnly,
         Extract.ExtractApplicationKeyValues;
    ClosedRunShape(p, s, steps, k, e);
    VerifyIssuedLayers(p, s.signingKey, steps);
    IssuedLogIsCaptured(p, s.signingKey, steps);
  }

  /** The attester's own evidence meets what the theorems about tampering ask of a presenter: each of its
      layers is signed by the erased key of its position alone, and its application key
      certificates by the key still held. */
  lemma HonestEvidenceIsUnforged(p: Primitives, s: AttesterState, steps: seq<Step>, k: KeyRequest, e: Evidence)
    requires RootOnly(s) && DistinctKeys(s.signingKey, steps) && Closes(p, s, steps, k, e)
    ensures SameRoot(s, e) && Unforged(p, s.signingKey, steps, e)
  {
    hide LayerOf, Closes, RootOnly, RootKey, VerifySignature, IssuedByHolder, IssuedBy, Presents,
         Extract.ExtractApplicationKeyValues;
    ClosedRunShape(p, s, steps, k, e);
    var t := RunResult(p, s, steps);
    forall cert, i: nat | Presents(e, cert) && i < |steps| && VerifySignature(Public(KeyAt(s.signingKey, steps, i)), cert)
      ensures IssuedBy(p, s.signingKey, steps, KeyAt(s.signingKey, steps, i), cert.payload)
    {
      assert KeyAt(s.signingKey, steps, i) != t.signingKey;
      OwnCertificateIsIssued(p, s.signingKey, steps, t, e, cert, KeyAt(s.signingKey, steps, i));
    }
  }

  /** A certificate in such evidence that verifies under a key other than the held one is an issued layer. */
  lemma OwnCertificateIsIssued(p: Primitives, first: SigningKey, steps: seq<Step>, t: AttesterState, e: Evidence,
                               cert: CoseSign1, key: SigningKey)
    requires e.layers == IssuedLayers(p, first, steps) && e.applicationKeys.Some?
    requires IssuedByHolder(p, t, e.applicationKeys.value.encryption)
    requires IssuedByHolder(p, t, e.applicationKeys.value.signing)
    requires Presents(e, cert) && SignedBy(Public(key), EncodedCert(cert)) && key != t.signingKey
    ensures IssuedBy(p, first, steps, key, cert.payload)
  {
    hide LayerOf, SignedBy, IssuedByHolder, PayloadOf, IssuedLayers;
    NotSignedBy(p, t, e.applicationKeys.value.encryption, key);
    NotSignedBy(p, t, e.applicationKeys.value.signing, key);
    PayloadOfLayer(cert);
    var j: nat :| j < |e.layers| && e.layers[j] == LayerEvidence(EncodedCert(cert));
  }

  lemma NotSignedBy(p: Primitives, t: AttesterState, bytes: CertificateBytes, key: SigningKey)
    requires IssuedByHolder(p, t, bytes) && key != t.signingKey
    ensures !SignedBy(Public(key), bytes)
  {
  }

  lemma PayloadOfLayer(cert: CoseSign1)
    ensures PayloadOf(LayerEvidence(EncodedCert(cert))) == cert.payload
  {
  }

  // ---------- Whose keys accepted evidence yields ----------

  function CertificatePayload(bytes: CertificateBytes): (r: Option<Payload>) {
    if bytes.EncodedCert? then bytes.cert.payload else None
  }

  predicate IssuedFor(keys: ApplicationKeys, payload: Option<Payload>) {
    payload == CertificatePayload(keys.encryption) || payload == CertificatePayload(keys.signing)
  }

  /** Signatures under the last key of a run, erased once the application keys are certified, cover only the
      two application key certificates in the evidence `h` of that run. */
  ghost predicate HeldKeyUnforged(key: SigningKey, h: Evidence, e: Evidence) {
    && h.applicationKeys.Some?
    && forall cert :: Presents(e, cert) && VerifySignature(Public(key), cert) ==>
         IssuedFor(h.applicationKeys.value, cert.payload)
  }

  /** The claims of the two certificates of a request. */
  lemma RequestedClaims(p: Primitives, t: AttesterState, k: KeyRequest, h: Evidence)
    returns (encryption: ClaimsSet, signing: ClaimsSet)
    requires Linked(p, t) && WithKeys(p, t, k) == Ok(h)
    ensures h.applicationKeys.Some?
    ensures CertificatePayload(h.applicationKeys.value.encryption) == Some(EncodedClaims(encryption))
    ensures CertificatePayload(h.applicationKeys.value.signing) == Some(EncodedClaims(signing))
    ensures encryption.rest == KeyClaims(Okp(k.kemKey)) + k.layerData.additionalClaims
    ensures signing.rest == KeyClaims(Ec2(k.key)) + k.layerData.additionalClaims
  {
    encryption := CertificatePayload(h.applicationKeys.value.encryption).value.claims;
    signing := CertificatePayload(h.applicationKeys.value.signing).value.claims;
  }

  lemma KeyOfClaims(key: CoseKey, additional: Claims, claims: ClaimsSet)
    requires claims.rest == KeyClaims(key) + additional
    ensures GetPublicKeyFromClaimsSet(claims) == Ok(key)
    ensures FindClaim(claims.rest, APPLICATION_KEY_ID) == FindClaim(additional, APPLICATION_KEY_ID)
  {
    assert claims.rest[0] == (PrivateUse(SUBJECT_PUBLIC_KEY_ID), KeyBytes(key));
    FindClaimSkips(KeyClaims(key), additional, APPLICATION_KEY_ID);
  }

  /** Certificates with the payloads of a request yield its keys, or nothing when they are not in their own
      places. */
  lemma KeysOfRequest(p: Primitives, t: AttesterState, k: KeyRequest, h: Evidence, keys: ApplicationKeys)
    requires Linked(p, t) && WithKeys(p, t, k) == Ok(h) && h.applicationKeys.Some?
    requires FindClaim(k.layerData.additionalClaims, APPLICATION_KEY_ID) == None
    requires IssuedFor(h.applicationKeys.value, CertificatePayload(keys.encryption))
    requires IssuedFor(h.applicationKeys.value, CertificatePayload(keys.signing))
    requires Extract.ExtractApplicationKeyValues(p, keys).Ok?
    ensures Extract.ExtractApplicationKeyValues(p, keys) == Ok(Extract.ApplicationKeyValues(k.kemKey, p.sec1Bytes(k.key)))
  {
    hide WithKeys, Linked, KeyClaims, FindClaim, GetPublicKeyFromClaimsSet;
    var encryption, signing := RequestedClaims(p, t, k, h);
    KeyOfClaims(Okp(k.kemKey), k.layerData.additionalClaims, encryption);
    KeyOfClaims(Ec2(k.key), k.layerData.additionalClaims, signing);
  }

  /** Soundness of the extracted keys: whoever presents evidence under the root of a finished, closed run, if
      its chain ends where the run ended, the keys the verifier reports are those of the run. A longer
      chain goes on from the run's own signing key certificate. */
  lemma AcceptedKeysAreTheRuns(p: Primitives, d: Extract.Decoders, s: AttesterState, steps: seq<Step>, k: KeyRequest,
                               h: Evidence, e: Evidence, x: Extract.ExtractedEvidence)
    requires RootOnly(s) && DistinctKeys(s.signingKey, steps) && Closes(p, s, steps, k, h)
    requires FindClaim(k.layerData.additionalClaims, APPLICATION_KEY_ID) == None
    requires SameRoot(s, e) && Unforged(p, s.signingKey, steps, e)
    requires HeldKeyUnforged(KeyAt(s.signingKey, steps, |steps|), h, e)
    requires VerifyAndExtract(p, d, e) == Ok(x)
    ensures |steps| <= |e.layers|
    ensures |e.layers| == |steps| ==>
              x.encryptionPublicKey == k.kemKey && x.signingPublicKey == p.sec1Bytes(k.key)
    ensures |e.layers| > |steps| ==>
              h.applicationKeys.Some? && PayloadOf(e.layers[|steps|]) == CertificatePayload(h.applicationKeys.value.signing)
  {
    hide Run, WithKeys, RootOnly, DistinctKeys, Unforged, VerifyAndExtract, RootKey, VerifyLayer, LayerOf,
         Extract.ExtractApplicationKeyValues, Extract.ExtractEvidenceValues, ValidateEventsAndLayers, IssuedFor,
         FindClaim, CertificatePayload, Presents, VerifySignature;
    HistoryIsComplete(p, d, s, steps, e);
    AcceptedParts(p, d, e);
    RootOnlyIsLinked(p, s);
    RunClosedForm(p, s, steps);
    var t, keys := RunResult(p, s, steps), e.applicationKeys.value;
    assert e.layers[0..] == e.layers;
    if |e.layers| == |steps| {
      AcceptedLayersRepeatHistory(p, s.signingKey, steps, e, 0);
      UnderHeldKey(t.signingKey, h, e, keys.encryption);
      UnderHeldKey(t.signingKey, h, e, keys.signing);
      KeysOfRequest(p, t, k, h, keys);
    } else {
      ChainReachesHeldKey(p, s.signingKey, steps, e, 0);
      ContinuedBySigningKey(p, t, k, h, e, e.layers[|steps|]);
    }
  }

  lemma UnderHeldKey(key: SigningKey, h: Evidence, e: Evidence, bytes: CertificateBytes)
    requires HeldKeyUnforged(key, h, e) && SignedBy(Public(key), bytes) && e.applicationKeys.Some?
    requires bytes == e.applicationKeys.value.encryption || bytes == e.applicationKeys.value.signing
    ensures IssuedFor(h.applicationKeys.value, CertificatePayload(bytes))
  {
    hide IssuedFor, VerifySignature;
    assert Presents(e, bytes.cert);
  }

  /** A chain that is longer than the run goes on from the held key. */
  lemma {:induction false} ChainReachesHeldKey(p: Primitives, first: SigningKey, steps: seq<Step>, e: Evidence, i: nat)
    requires DistinctKeys(first, steps) && Unforged(p, first, steps, e)
    requires i <= |steps| < |e.layers|
    requires VerifyLayers(Public(KeyAt(first, steps, i)), e.layers[i..]).Ok?
    ensures VerifyLayer(Public(KeyAt(first, steps, |steps|)), e.layers[|steps|]).Ok?
    decreases |steps| - i
  {
    hide VerifyLayer, DistinctKeys, Unforged, LayerOf, PayloadOf;
    assert e.layers[i..][0] == e.layers[i] && e.layers[i..][1..] == e.layers[i + 1..];
    if i < |steps| {
      AcceptedLayerIsIssued(p, first, steps, e, i);
      ChainReachesHeldKey(p, first, steps, e, i + 1);
    }
  }

  /** Of the two certificates under the held key only the signing one can be a layer. */
  lemma ContinuedBySigningKey(p: Primitives, t: AttesterState, k: KeyRequest, h: Evidence, e: Evidence,
                              layer: LayerEvidence)
    requires Linked(p, t) && WithKeys(p, t, k) == Ok(h) && HeldKeyUnforged(t.signingKey, h, e)
    requires layer in e.layers && VerifyLayer(Public(t.signingKey), layer).Ok?
    ensures PayloadOf(layer) == CertificatePayload(h.applicationKeys.value.signing)
  {
    hide WithKeys, Linked, KeyClaims, VerifySignature, GetPublicKeyFromClaimsSet;
    assert Presents(e, layer.ecaCertificate.cert);
    var encryption, signing := RequestedClaims(p, t, k, h);
    KeyOfClaims(Okp(k.kemKey), k.layerData.additionalClaims, encryption);
  }

  /** The evidence of the run itself meets the assumption about the held key. */
  lemma HonestKeysAreUnforged(p: Primitives, s: AttesterState, steps: seq<Step>, k: KeyRequest, h: Evidence)
    requires RootOnly(s) && DistinctKeys(s.signingKey, steps) && Closes(p, s, steps, k, h)
    ensures HeldKeyUnforged(KeyAt(s.signingKey, steps, |steps|), h, h)
  {
    hide Closes, RootOnly, RootKey, LayerOf, IssuedByHolder, VerifySignature, Extract.ExtractApplicationKeyValues;
    ClosedRunShape(p, s, steps, k, h);
    var held := KeyAt(s.signingKey, steps, |steps|);
    forall cert | Presents(h, cert) && VerifySignature(Public(held), cert)
      ensures IssuedFor(h.applicationKeys.value, cert.payload)
    {
      forall j: nat | j < |h.layers| ensures h.layers[j] != LayerEvidence(EncodedCert(cert)) {
        LayerOfLinks(p, KeyAt(s.signingKey, steps, j), steps[j]);
        assert KeyAt(s.signingKey, steps, j) != held;
      }
    }
  }

  // ---------- The CB pipeline ----------

  /** An encoded event decodes to one with a payload of this type. */
  predicate IsOfType(d: Extract.Decoders, event: Bytes, url: Extract.TypeUrl) {
    d.event(event).Some? && d.event(event).value.event.Some? && d.event(event).value.event.value.typeUrl == url
  }

  /** The types of an Oak Containers stack, in either form, and of a Restricted Kernel stack. */
  predicate ContainerTypes(d: Extract.Decoders, events: seq<Bytes>) {
    && |events| == 3 && IsOfType(d, events[0], Extract.Stage0Url)
    && (|| (IsOfType(d, events[1], Extract.SystemUrl) && IsOfType(d, events[2], Extract.ContainerUrl))
        || (IsOfType(d, events[1], Extract.Stage1Url) && IsOfType(d, events[2], Extract.OrchestratorUrl)))
  }

  predicate RestrictedKernelTypes(d: Extract.Decoders, events: seq<Bytes>) {
    |events| == 2 && IsOfType(d, events[0], Extract.Stage0Url) && IsOfType(d, events[1], Extract.ApplicationUrl)
  }

  predicate AllDecode(d: Extract.Decoders, events: seq<Bytes>) {
    forall i: nat :: i < |events| ==> d.event(events[i]).Some?
  }

  /** Three or more events that decode and do not have the types of a containers stack. */
  predicate CbEvents(d: Extract.Decoders, events: seq<Bytes>) {
    |events| >= 3 && AllDecode(d, events) && !ContainerTypes(d, events)
  }

  /** Which logs are read as CB, and which are refused: those with an event that does not decode, and those
      of fewer than three events that are not of the Restricted Kernel types. */
  lemma KindOfLog(p: Primitives, d: Extract.Decoders, root: Extract.RootLayerData, events: seq<Bytes>)
    ensures CbEvents(d, events) ==>
              Extract.ExtractFromEvents(p, d, root, events) == Ok(Extract.Cb(Some(root), Extract.CbLayers(p, events)))
    ensures Extract.ExtractFromEvents(p, d, root, events).Ok? && Extract.ExtractFromEvents(p, d, root, events).value.Cb? ==>
              CbEvents(d, events)
    ensures !AllDecode(d, events) || (|events| < 3 && !RestrictedKernelTypes(d, events)) ==>
              Extract.ExtractFromEvents(p, d, root, events) == Err
  {
    hide Extract.DecodePayload, Extract.CbLayers, Extract.Stage0ToKernelLayer;
    assert AllDecode(d, events) <==> Extract.DecodeEvents(d, events).Ok?;
  }

  /** What extraction makes of the evidence of a CB run. */
  lemma CbExtraction(p: Primitives, d: Extract.Decoders, e: Evidence, root: Extract.RootLayerData)
    requires e.rootLayer.Some? && Extract.ExtractRootValues(d, e.rootLayer.value) == Ok(root)
    requires CbEvents(d, Events(e.eventLog))
    ensures Extract.ExtractEvidenceValues(p, d, e) == Ok(Extract.Cb(Some(root), Extract.CbLayers(p, Events(e.eventLog))))
  {
    hide Extract.ExtractFromEvents, Extract.ExtractFromClaims, Extract.CbLayers, Extract.ExtractRootValues;
    KindOfLog(p, d, root, Events(e.eventLog));
  }

  /** The whole acceptance condition for one expected layer. */
  predicate EventMatches(p: Primitives, event: Bytes, expected: EventExpected) {
    && expected.event.Some?
    && (expected.event.value.SkippedDigests?
        || (expected.event.value.DigestList?
            && exists i: nat :: i < |expected.event.value.digests|
                 && expected.event.value.digests[i].sha2_256 == p.sha256(event)))
  }

  lemma EventMatchesIffDigest(p: Primitives, event: Bytes, expected: EventExpected)
    ensures MatchesEvent(Extract.EventData(Some(Sha256Digest(p.sha256(event)))), expected)
       <==> EventMatches(p, event, expected)
  {
    hide Matches;
    if expected.event.Some? && expected.event.value.DigestList? {
      forall i: nat | i < |expected.event.value.digests|
        ensures Matches(Sha256Digest(p.sha256(event)), expected.event.value.digests[i])
           <==> expected.event.value.digests[i].sha2_256 == p.sha256(event)
      {
        Sha256Matches(p.sha256(event), expected.event.value.digests[i]);
      }
    }
  }

  /** `verify_with_expected_values`. `teeCertificate` is `None` when the endorsements have no root
      layer; `rootSignature` is the check of the hardware report. */
  function VerifyWithExpectedValues(p: Primitives, d: Extract.Decoders, c: Checks,
                                    rootSignature: (bool, RootLayerEvidence, Bytes) -> bool,
                                    e: Evidence, teeCertificate: Option<Bytes>, expected: Option<ExpectedValues>)
    : (r: Outcome<Extract.ExtractedEvidence>)
  {
    var certificate :- OkOr(teeCertificate);
    var values :- OkOr(expected);
    var rootExpected :- OkOr(values.rootLayer);
    var checkExpiry := rootExpected.amdSev.Some? && rootExpected.amdSev.value.checkVcekCertExpiry;
    var root :- OkOr(e.rootLayer);
    var _ :- Ensure(rootSignature(checkExpiry, root, certificate));
    var extracted :- VerifyAndExtract(p, d, e);
    var _ :- Ensure(Accepts(c, extracted, expected));
    Ok(extracted)
  }

  /** A SHA2-384 digest is among the expected ones, or the leaf is skipped. */
  ghost predicate Sha384Expected(digest: Bytes, x: Option<ExpectedDigests>) {
    && x.Some?
    && (|| x.value.SkippedDigests?
        || (x.value.DigestList? && digest != []
            && exists i: nat :: i < |x.value.digests| && x.value.digests[i].sha2_384 == digest))
  }

  lemma Sha384Leaf(digest: Bytes, x: Option<ExpectedDigests>)
    ensures MatchesOptional(Some(Sha384Digest(digest)), x) <==> Sha384Expected(digest, x)
  {
    hide Matches;
    if x.Some? && x.value.DigestList? {
      forall i: nat | i < |x.value.digests|
        ensures Matches(Sha384Digest(digest), x.value.digests[i]) <==> digest != [] && x.value.digests[i].sha2_384 == digest
      {
        Sha384Matches(digest, x.value.digests[i]);
      }
    }
  }

  /** The root layer of the evidence is accepted. Its signature holds and, on AMD, its report parses, its
      initial measurement is an expected SHA2-384 digest and its platform values pass; reference values
      without AMD ones have to allow insecure reports. Without a TEE they always have to. Other
      platforms are never accepted. */
  ghost predicate RootAccepted(d: Extract.Decoders, c: Checks, rootSignature: (bool, RootLayerEvidence, Bytes) -> bool,
                               root: RootLayerEvidence, certificate: Bytes, x: RootExpected)
  {
    && rootSignature(x.amdSev.Some? && x.amdSev.value.checkVcekCertExpiry, root, certificate)
    && (|| (&& root.platform.AmdSevSnp? && d.amdReport(root.report).Some?
            && (x.amdSev.None? ==> x.insecure.Some?)
            && (x.amdSev.Some? ==>
                  && Sha384Expected(d.amdReport(root.report).value.initialMeasurement, x.amdSev.value.stage0Expected)
                  && c.amdReport(d.amdReport(root.report).value, x.amdSev.value.platform)))
        || (root.platform.NoTee? && d.fakeReportData(root.report).Some? && x.insecure.Some?))
  }

  /** Extraction and comparison of the root layer come to that. */
  lemma RootAcceptedExactly(d: Extract.Decoders, c: Checks, rootSignature: (bool, RootLayerEvidence, Bytes) -> bool,
                            root: RootLayerEvidence, certificate: Bytes, x: RootExpected)
    ensures RootAccepted(d, c, rootSignature, root, certificate, x)
       <==> && rootSignature(x.amdSev.Some? && x.amdSev.value.checkVcekCertExpiry, root, certificate)
            && Extract.ExtractRootValues(d, root).Ok?
            && MatchesRoot(c, Extract.ExtractRootValues(d, root).value, x)
  {
    hide MatchesDigest, Sha384Expected;
    if root.platform.AmdSevSnp? && d.amdReport(root.report).Some? && x.amdSev.Some? {
      Sha384Leaf(d.amdReport(root.report).value.initialMeasurement, x.amdSev.value.stage0Expected);
    }
  }

  /** Comparison of event digests with CB expectations. */
  lemma CbComparison(p: Primitives, c: Checks, x: Extract.ExtractedEvidence, root: Extract.RootLayerData,
                     events: seq<Bytes>, rootExpected: RootExpected, layersExpected: seq<EventExpected>)
    requires x.evidenceValues == Some(Extract.Cb(Some(root), Extract.CbLayers(p, events)))
    ensures Accepts(c, x, Some(ExpectCb(Some(rootExpected), layersExpected)))
       <==> && MatchesRoot(c, root, rootExpected) && |layersExpected| == |events|
            && forall i: nat :: i < |events| ==> EventMatches(p, events[i], layersExpected[i])
  {
    hide MatchesRoot, MatchesEvent, EventMatches;
    forall i: nat | i < |events| && i < |layersExpected|
      ensures MatchesEvent(Extract.CbLayers(p, events)[i], layersExpected[i])
         <==> EventMatches(p, events[i], layersExpected[i])
    {
      EventMatchesIffDigest(p, events[i], layersExpected[i]);
    }
  }

  /** The answer of the extracting verifier on honest CB evidence. */
  lemma HonestCbVerdict(p: Primitives, d: Extract.Decoders, s: AttesterState, steps: seq<Step>, k: KeyRequest, e: Evidence)
    requires RootOnly(s) && Closes(p, s, steps, k, e) && CbEvents(d, OriginalEvents(steps))
    ensures e.rootLayer == s.evidence.rootLayer && e.rootLayer.Some?
    ensures var root := Extract.ExtractRootValues(d, e.rootLayer.value);
      && (root.Ok? ==> VerifyAndExtract(p, d, e) == Ok(Extract.ExtractedEvidence(
            Some(Extract.Cb(Some(root.value), Extract.CbLayers(p, OriginalEvents(steps)))),
            k.kemKey, p.sec1Bytes(k.key))))
      && (root.IsFailure() ==> VerifyAndExtract(p, d, e).IsFailure())
  {
    hide Closes, VerifyAndExtract, Extract.ExtractEvidenceValues, Extract.ExtractRootValues,
         Extract.ExtractApplicationKeyValues, CbEvents, Extract.CbLayers, LayerOf, RootKey, IssuedByHolder;
    HonestEvidenceIsAccepted(p, d, s, steps, k, e);
    ClosedRunShape(p, s, steps, k, e);
    var root := Extract.ExtractRootValues(d, e.rootLayer.value);
    if root.Ok? {
      CbExtraction(p, d, e, root.value);
    } else {
      RootValuesFail(p, d, e);
    }
  }

  /** End to end: for every closed run of three or more extensions whose events decode and do not have the types of a
      containers stack, the complete verifier accepts exactly when the root layer is accepted, there is one
      expected layer per event, and each event's SHA2-256 digest is expected at its position. */
  lemma CbEndToEnd(p: Primitives, d: Extract.Decoders, c: Checks, rootSignature: (bool, RootLayerEvidence, Bytes) -> bool,
                   s: AttesterState, steps: seq<Step>, k: KeyRequest, e: Evidence, certificate: Bytes,
                   rootExpected: RootExpected, layersExpected: seq<EventExpected>)
    requires RootOnly(s) && Closes(p, s, steps, k, e) && CbEvents(d, OriginalEvents(steps))
    ensures VerifyWithExpectedValues(p, d, c, rootSignature, e, Some(certificate),
                                     Some(ExpectCb(Some(rootExpected), layersExpected))).Ok?
       <==> && RootAccepted(d, c, rootSignature, s.evidence.rootLayer.value, certificate, rootExpected)
            && |layersExpected| == |steps|
            && forall i: nat :: i < |steps| ==> EventMatches(p, steps[i].extension.event, layersExpected[i])
  {
    hide Closes, VerifyAndExtract, Extract.ExtractRootValues, MatchesRoot, EventMatches, CbEvents, Accepts,
         RootAccepted;
    HonestCbVerdict(p, d, s, steps, k, e);
    RootAcceptedExactly(d, c, rootSignature, e.rootLayer.value, certificate, rootExpected);
    var root := Extract.ExtractRootValues(d, e.rootLayer.value);
    if root.Ok? {
      var x := Extract.ExtractedEvidence(Some(Extract.Cb(Some(root.value), Extract.CbLayers(p, OriginalEvents(steps)))),
                                         k.kemKey, p.sec1Bytes(k.key));
      CbComparison(p, c, x, root.value, OriginalEvents(steps), rootExpected, layersExpected);
    }
  }

  lemma RootValuesFail(p: Primitives, d: Extract.Decoders, e: Evidence)
    requires e.rootLayer.Some? && Extract.ExtractRootValues(d, e.rootLayer.value).IsFailure()
    ensures Extract.ExtractEvidenceValues(p, d, e).IsFailure()
  {
  }

  /** Soundness: if anyone gets the verifier to accept CB evidence under the root of an honest
      attester, then the root was accepted and every event the honest stages recorded is
      expected, each at its own position. */
  lemma AcceptanceBindsHonestStages(p: Primitives, d: Extract.Decoders, c: Checks,
                                    rootSignature: (bool, RootLayerEvidence, Bytes) -> bool,
                                    s: AttesterState, steps: seq<Step>, e: Evidence, teeCertificate: Option<Bytes>,
                                    rootExpected: Option<RootExpected>, layersExpected: seq<EventExpected>)
    requires RootOnly(s) && DistinctKeys(s.signingKey, steps)
    requires SameRoot(s, e) && Unforged(p, s.signingKey, steps, e)
    requires VerifyWithExpectedValues(p, d, c, rootSignature, e, teeCertificate,
                                      Some(ExpectCb(rootExpected, layersExpected))).Ok?
    ensures e.rootLayer.Some? && teeCertificate.Some? && rootExpected.Some?
    ensures RootAccepted(d, c, rootSignature, e.rootLayer.value, teeCertificate.value, rootExpected.value)
    ensures |steps| <= |layersExpected|
    ensures forall i: nat :: i < |steps| ==> EventMatches(p, steps[i].extension.event, layersExpected[i])
  {
    hide VerifyAndExtract, MatchesRoot, MatchesEvent, EventMatches, Extract.ExtractEvidenceValues, Unforged,
         DistinctKeys, RootOnly, SameRoot, Extract.ExtractRootValues, VerifyLayers, RootKey, SignedBy,
         ValidateEventsAndLayers, Extract.ExtractApplicationKeyValues, RootAccepted;
    var x := VerifyAndExtract(p, d, e).value;
    AcceptedParts(p, d, e);
    var root, layers := x.evidenceValues.value.rootLayer, x.evidenceValues.value.layers;
    NoMisreporting(p, d, s, steps, e, x, root, layers);
    ExtractedRoot(p, d, e);
    RootAcceptedExactly(d, c, rootSignature, e.rootLayer.value, teeCertificate.value, rootExpected.value);
    forall i: nat | i < |steps| ensures EventMatches(p, steps[i].extension.event, layersExpected[i]) {
      assert layers[i] == Extract.CbLayers(p, OriginalEvents(steps))[i];
      EventMatchesIffDigest(p, steps[i].extension.event, layersExpected[i]);
    }
  }

  lemma ExtractedRoot(p: Primitives, d: Extract.Decoders, e: Evidence)
    requires Extract.ExtractEvidenceValues(p, d, e).Ok?
    ensures e.rootLayer.Some? && Extract.ExtractRootValues(d, e.rootLayer.value).Ok?
    ensures Extract.ExtractEvidenceValues(p, d, e).value.rootLayer
         == Some(Extract.ExtractRootValues(d, e.rootLayer.value).value)
  {
    hide Extract.HasType, Extract.CbLayers, Extract.DecodePayload, Extract.ExtractKernelValues,
         Extract.ExtractSystemLayer, Extract.ExtractContainerLayer, Extract.ExtractApplicationLayer,
         Extract.ExtractLayerEvents, Extract.ExtractRootValues, Extract.DecodeEvents, Extract.Stage0ToKernelLayer;
  }
}
