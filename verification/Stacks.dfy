/** The pipeline from end to end for the two stacks of fixed shape, Oak
    Containers and Restricted Kernel: what the recorded measurements have to be
    for the verifier to accept. */
module Stacks {
  import opened Prelude
  import opened Certificates
  import opened EvidenceTypes
  import opened Dice
  import opened DiceRuns
  import opened Digests
  import Extract
  import opened Verifier
  import opened ChainTheorems
  import opened Compare
  import opened EndToEnd
  import opened Routes
  import Utf8

  /** A SHA2-256 digest is among the expected ones, or the leaf is skipped. */
  ghost predicate Sha256Expected(digest: Bytes, x: Option<ExpectedDigests>) {
    && x.Some?
    && (|| x.value.SkippedDigests?
        || (x.value.DigestList? && digest != []
            && exists i: nat :: i < |x.value.digests| && x.value.digests[i].sha2_256 == digest))
  }

  lemma Sha256Leaf(digest: Bytes, x: Option<ExpectedDigests>)
    ensures MatchesOptional(Some(Sha256Digest(digest)), x) <==> Sha256Expected(digest, x)
  {
    hide Matches;
    if x.Some? && x.value.DigestList? {
      forall i: nat | i < |x.value.digests|
        ensures Matches(Sha256Digest(digest), x.value.digests[i]) <==> digest != [] && x.value.digests[i].sha2_256 == digest
      {
        Sha256Matches(digest, x.value.digests[i]);
      }
    }
  }

  /** A measurement is present and is expected: the leaf is skipped, or lists a digest of the same artifact. */
  ghost predicate LeafExpected(measurement: Option<RawDigest>, x: Option<ExpectedDigests>) {
    && measurement.Some? && x.Some?
    && (|| x.value.SkippedDigests?
        || (x.value.DigestList? && exists i: nat :: i < |x.value.digests|
                                                    && SameArtifact(measurement.value, x.value.digests[i])))
  }

  lemma LeafExactly(measurement: Option<RawDigest>, x: Option<ExpectedDigests>)
    ensures MatchesOptional(measurement, x) <==> LeafExpected(measurement, x)
  {
    hide Matches, SameArtifact;
    if measurement.Some? && x.Some? && x.value.DigestList? {
      forall i: nat | i < |x.value.digests|
        ensures Matches(measurement.value, x.value.digests[i]) <==> SameArtifact(measurement.value, x.value.digests[i])
      {
        MatchesExactly(measurement.value, x.value.digests[i]);
      }
    }
  }

  /** A digest message without any digest matches nothing, so only skipping accepts it. */
  lemma EmptyLeaf(x: Option<ExpectedDigests>)
    ensures MatchesOptional(Some(EMPTY), x) <==> x == Some(SkippedDigests)
  {
    hide Matches;
    Sha256Leaf([], x);
    assert Sha256Digest([]) == EMPTY;
  }

  ghost predicate TextExpected(c: Checks, text: string, x: Option<TextExpectedValue>) {
    && x.Some?
    && (|| x.value.SkippedText?
        || (|Utf8.Encode(text)| < 256
            && (|| (x.value.StringLiterals? && text in x.value.values)
                || (x.value.Regex? && c.regex(text, x.value.pattern)))))
  }

  /** What stage 0 measured is expected, field by field. */
  ghost predicate KernelExpectedBy(c: Checks, m: Extract.Stage0Measurements, x: KernelExpected) {
    && x.kernel.Some?
    && Sha256Expected(m.kernelMeasurement, x.kernel.value.image)
    && Sha256Expected(m.setupDataDigest, x.kernel.value.setupData)
    && Sha256Expected(m.ramDiskDigest, x.initRamFs)
    && Sha256Expected(m.memoryMapDigest, x.memoryMap)
    && Sha256Expected(m.acpiDigest, x.acpi)
    && TextExpected(c, m.kernelCmdline, x.kernelCmdLineText)
  }

  lemma KernelComparison(c: Checks, m: Extract.Stage0Measurements, x: KernelExpected)
    ensures MatchesKernel(c, Extract.Stage0ToKernelLayer(m), x) <==> KernelExpectedBy(c, m, x)
  {
    hide MatchesOptional, Sha256Expected;
    if x.kernel.Some? {
      Sha256Leaf(m.kernelMeasurement, x.kernel.value.image);
      Sha256Leaf(m.setupDataDigest, x.kernel.value.setupData);
    }
    Sha256Leaf(m.ramDiskDigest, x.initRamFs);
    Sha256Leaf(m.memoryMapDigest, x.memoryMap);
    Sha256Leaf(m.acpiDigest, x.acpi);
  }

  /** The complete verifier on evidence whose chain it accepts and whose values are known. */
  lemma VerdictFromValues(p: Primitives, d: Extract.Decoders, c: Checks,
                          rootSignature: (bool, RootLayerEvidence, Bytes) -> bool,
                          e: Evidence, certificate: Bytes, expected: ExpectedValues, rootExpected: RootExpected,
                          keys: Extract.ApplicationKeyValues, rest: Extract.RootLayerData -> Extract.EvidenceValues)
    requires expected.rootLayer == Some(rootExpected) && e.rootLayer.Some? && e.applicationKeys.Some?
    requires VerifyAndExtract(p, d, e) == Extract.ExtractEvidence(p, d, e)
    requires Extract.ExtractApplicationKeyValues(p, e.applicationKeys.value) == Ok(keys)
    requires forall root :: Extract.ExtractRootValues(d, e.rootLayer.value) == Ok(root) ==>
               Extract.ExtractEvidenceValues(p, d, e) == Ok(rest(root))
    ensures VerifyWithExpectedValues(p, d, c, rootSignature, e, Some(certificate), Some(expected)).Ok?
       <==> && rootSignature(rootExpected.amdSev.Some? && rootExpected.amdSev.value.checkVcekCertExpiry,
                             e.rootLayer.value, certificate)
            && Extract.ExtractRootValues(d, e.rootLayer.value).Ok?
            && Accepts(c, Extract.ExtractedEvidence(Some(rest(Extract.ExtractRootValues(d, e.rootLayer.value).value)),
                                                    keys.encryptionPublicKey, keys.signingPublicKey), Some(expected))
  {
    hide VerifyAndExtract, Accepts, Extract.ExtractRootValues, Extract.ExtractEvidenceValues,
         Extract.ExtractApplicationKeyValues;
    if Extract.ExtractRootValues(d, e.rootLayer.value).IsFailure() {
      RootValuesFail(p, d, e);
    }
  }

  // ---------- Oak Containers ----------

  /** End to end for Oak Containers: for every run of three extensions that record such a stack, in
      either form of its messages, the complete verifier accepts exactly when the root layer is
      accepted and every recorded measurement is expected in its own place. */
  lemma ContainersEndToEnd(p: Primitives, d: Extract.Decoders, c: Checks,
                           rootSignature: (bool, RootLayerEvidence, Bytes) -> bool, s: AttesterState, steps: seq<Step>,
                           k: KeyRequest, e: Evidence, certificate: Bytes, kernel: Extract.Stage0Measurements,
                           system: Extract.SystemLayerData, container: Extract.ContainerLayerData,
                           rx: RootExpected, kx: KernelExpected, sx: SystemExpected, cx: ContainerExpected)
    requires RootOnly(s) && Closes(p, s, steps, k, e)
    requires ContainerEvents(d, OriginalEvents(steps), kernel, system, container)
    ensures VerifyWithExpectedValues(p, d, c, rootSignature, e, Some(certificate),
                                     Some(ExpectContainers(Some(rx), Some(kx), Some(sx), Some(cx)))).Ok?
       <==> && RootAccepted(d, c, rootSignature, s.evidence.rootLayer.value, certificate, rx)
            && KernelExpectedBy(c, kernel, kx)
            && LeafExpected(system.systemImage, sx.systemImage)
            && LeafExpected(container.bundle, cx.bundle) && LeafExpected(container.config, cx.config)
  {
    hide Closes, RootAccepted, VerifyAndExtract, Extract.ExtractRootValues, Extract.ExtractEvidenceValues,
         MatchesRoot, RootKey, MatchesKernel, KernelExpectedBy, MatchesOptional, LeafExpected,
         VerifyWithExpectedValues, LayerOf, IssuedByHolder, Extract.ExtractApplicationKeyValues, ContainerEvents,
         Extract.Stage0ToKernelLayer, Extract.ExtractEvidence;
    ContainersAreThree(d, OriginalEvents(steps), kernel, system, container);
    HonestEvidenceIsAccepted(p, d, s, steps, k, e);
    ClosedRunShape(p, s, steps, k, e);
    var expected := ExpectContainers(Some(rx), Some(kx), Some(sx), Some(cx));
    var layer := Extract.Stage0ToKernelLayer(kernel);
    var rest := root => Extract.OakContainers(Some(root), Some(layer), Some(system), Some(container));
    forall root | Extract.ExtractRootValues(d, e.rootLayer.value) == Ok(root)
      ensures Extract.ExtractEvidenceValues(p, d, e) == Ok(rest(root))
    {
      ContainersFromEvents(p, d, root, OriginalEvents(steps), kernel, system, container);
      ValuesFromLog(p, d, e, root);
    }
    VerdictFromValues(p, d, c, rootSignature, e, certificate, expected, rx,
                      Extract.ApplicationKeyValues(k.kemKey, p.sec1Bytes(k.key)), rest);
    RootAcceptedExactly(d, c, rootSignature, e.rootLayer.value, certificate, rx);
    KernelComparison(c, kernel, kx);
    LeafExactly(system.systemImage, sx.systemImage);
    LeafExactly(container.bundle, cx.bundle);
    LeafExactly(container.config, cx.config);
  }

  lemma ContainersAreThree(d: Extract.Decoders, events: seq<Bytes>, kernel: Extract.Stage0Measurements,
                           system: Extract.SystemLayerData, container: Extract.ContainerLayerData)
    requires ContainerEvents(d, events, kernel, system, container)
    ensures |events| == 3
  {
  }

  lemma ValuesFromLog(p: Primitives, d: Extract.Decoders, e: Evidence, root: Extract.RootLayerData)
    requires e.rootLayer.Some? && Extract.ExtractRootValues(d, e.rootLayer.value) == Ok(root)
    requires Events(e.eventLog) != []
    ensures Extract.ExtractEvidenceValues(p, d, e) == Extract.ExtractFromEvents(p, d, root, Events(e.eventLog))
  {
    hide Extract.ExtractFromEvents, Extract.ExtractRootValues;
  }

  // ---------- Restricted Kernel ----------

  /** What the kernel's orchestrator asks of the attester it got from stage 0: application keys whose
      certificates commit to the application's event. */
  function OrchestratorKeys(p: Primitives, event: Bytes, kemKey: Bytes, key: VerifyingKey): (r: KeyRequest) {
    KeyRequest(LayerData([DigestClaim(p, EVENT_ID, event)], event), kemKey, key, None, None)
  }

  /** The evidence it sends: that event is logged, but no layer is added for it. */
  function RestrictedKernelEvidence(p: Primitives, t: AttesterState, event: Bytes, kemKey: Bytes, key: VerifyingKey)
    : (r: Outcome<Evidence>)
  {
    var e :- WithKeys(p, t, OrchestratorKeys(p, event, kemKey, key));
    Ok(e.(eventLog := Push(e.eventLog, event)))
  }

  /** A certificate with this one additional claim commits to the event. */
  lemma CommitsToEvent(p: Primitives, key: CoseKey, event: Bytes, claims: ClaimsSet)
    requires claims.rest == KeyClaims(key) + [DigestClaim(p, EVENT_ID, event)]
    ensures CapturedInClaims(p, event, Ok(claims), Extract.EventDigest)
  {
    FindClaimSkips(KeyClaims(key), [DigestClaim(p, EVENT_ID, event)], EVENT_ID);
  }

  lemma RestrictedKernelIsAccepted(p: Primitives, d: Extract.Decoders, s: AttesterState, step: Step, event: Bytes,
                                   kemKey: Bytes, key: VerifyingKey)
    returns (e: Evidence)
    requires RootOnly(s)
    ensures Run(p, s, [step]).Ok? && RestrictedKernelEvidence(p, Run(p, s, [step]).value, event, kemKey, key) == Ok(e)
    ensures e.rootLayer == s.evidence.rootLayer && Events(e.eventLog) == [step.extension.event, event]
    ensures e.applicationKeys.Some?
    ensures Extract.ExtractApplicationKeyValues(p, e.applicationKeys.value)
         == Ok(Extract.ApplicationKeyValues(kemKey, p.sec1Bytes(key)))
    ensures VerifyAndExtract(p, d, e) == Extract.ExtractEvidence(p, d, e)
  {
    hide LayerOf, Run, WithKeys, Extract.ExtractEvidence, Extract.ExtractApplicationKeyValues, VerifyLayers,
         CapturedInClaims, RootKey, KeyClaims, RootOnly, ClaimsFromCertificate;
    var k := OrchestratorKeys(p, event, kemKey, key);
    RunsCanBeClosed(p, s, [step], k);
    var before :| Closes(p, s, [step], k, before);
    ClosedRunShape(p, s, [step], k, before);
    var final := EncryptionClaims(p, s, [step], k, before);
    e := before.(eventLog := Push(before.eventLog, event));
    SameRootLayerSameKey(before, e);
    VerifyIssuedLayers(p, s.signingKey, [step]);
    IssuedLogIsCaptured(p, s.signingKey, [step]);
    assert OriginalEvents([step]) == [step.extension.event];
    CommitsToEvent(p, Okp(kemKey), event, final);
  }

  /** What is recorded of the application is expected, field by field. */
  ghost predicate ApplicationExpectedBy(m: Extract.ApplicationLayerData, x: ApplicationExpected) {
    LeafExpected(m.binary, x.binary) && LeafExpected(m.config, x.configuration)
  }

  /** End to end for Restricted Kernel: one layer, two events, and the application key certificates
      committing to the second. The complete verifier accepts exactly when the root layer is accepted
      and the measurements of kernel and application are expected. */
  lemma RestrictedKernelEndToEnd(p: Primitives, d: Extract.Decoders, c: Checks,
                                 rootSignature: (bool, RootLayerEvidence, Bytes) -> bool, s: AttesterState, step: Step,
                                 event: Bytes, kemKey: Bytes, key: VerifyingKey, certificate: Bytes,
                                 kernel: Extract.Stage0Measurements, application: Extract.ApplicationLayerData,
                                 rx: RootExpected, kx: KernelExpected, ax: ApplicationExpected)
    requires RootOnly(s) && RestrictedKernelEvents(d, [step.extension.event, event], kernel, application)
    ensures Run(p, s, [step]).Ok? && RestrictedKernelEvidence(p, Run(p, s, [step]).value, event, kemKey, key).Ok?
    ensures var e := RestrictedKernelEvidence(p, Run(p, s, [step]).value, event, kemKey, key).value;
      VerifyWithExpectedValues(p, d, c, rootSignature, e, Some(certificate),
                               Some(ExpectRestrictedKernel(Some(rx), Some(kx), Some(ax)))).Ok?
      <==> && RootAccepted(d, c, rootSignature, s.evidence.rootLayer.value, certificate, rx)
           && KernelExpectedBy(c, kernel, kx)
           && ApplicationExpectedBy(application, ax)
  {
    hide Run, RootAccepted, RestrictedKernelEvidence, VerifyAndExtract, Extract.ExtractRootValues,
         Extract.ExtractEvidenceValues, MatchesRoot, MatchesKernel, KernelExpectedBy, MatchesOptional, LeafExpected,
         VerifyWithExpectedValues, Extract.ExtractApplicationKeyValues, RestrictedKernelEvents,
         Extract.Stage0ToKernelLayer, Extract.ExtractEvidence;
    var e := RestrictedKernelIsAccepted(p, d, s, step, event, kemKey, key);
    var expected := ExpectRestrictedKernel(Some(rx), Some(kx), Some(ax));
    var layer := Extract.Stage0ToKernelLayer(kernel);
    var rest := root => Extract.OakRestrictedKernel(Some(root), Some(layer), Some(application));
    forall root | Extract.ExtractRootValues(d, e.rootLayer.value) == Ok(root)
      ensures Extract.ExtractEvidenceValues(p, d, e) == Ok(rest(root))
    {
      RestrictedKernelFromEvents(p, d, root, [step.extension.event, event], kernel, application);
      ValuesFromLog(p, d, e, root);
    }
    VerdictFromValues(p, d, c, rootSignature, e, certificate, expected, rx,
                      Extract.ApplicationKeyValues(kemKey, p.sec1Bytes(key)), rest);
    RootAcceptedExactly(d, c, rootSignature, e.rootLayer.value, certificate, rx);
    KernelComparison(c, kernel, kx);
    LeafExactly(application.binary, ax.binary);
    LeafExactly(application.config, ax.configuration);
  }

  /** The orchestrator records the application's SHA2-256 digest and an empty configuration digest, so
      the first has to be expected and the second has to be skipped. */
  lemma OrchestratorMeasurementsExpected(digest: Bytes, ax: ApplicationExpected)
    ensures MatchesApplication(Extract.ApplicationLayerData(Some(Sha256Digest(digest)), Some(EMPTY)), ax)
       <==> Sha256Expected(digest, ax.binary) && ax.configuration == Some(SkippedDigests)
  {
    hide MatchesOptional, Sha256Expected;
    Sha256Leaf(digest, ax.binary);
    EmptyLeaf(ax.configuration);
  }
}
