/** Soundness for the two stacks of fixed shape: what acceptance by the complete
    verifier says about the stages that were honest, whoever presents the evidence. */
module StackSoundness {
  import opened Prelude
  import opened Certificates
  import opened EvidenceTypes
  import opened Dice
  import opened DiceRuns
  import opened Digests
  import Extract
  import opened Verifier
  import opened ChainTheorems
  import opened Compare
  import opened EndToEnd
  import opened Routes
  import opened Stacks

  // ---------- From accepted evidence to the recorded events ----------

  /** Two different events at one position have one SHA2-256 digest. */
  ghost predicate EventCollision(p: Primitives, logged: seq<Bytes>, recorded: seq<Bytes>) {
    exists i: nat :: i < |logged| && i < |recorded| && logged[i] != recorded[i]
                     && p.sha256(logged[i]) == p.sha256(recorded[i])
  }

  /** The log starts with events of these digests. */
  ghost predicate SameDigests(p: Primitives, logged: seq<Bytes>, recorded: seq<Bytes>) {
    |recorded| <= |logged| && forall i: nat :: i < |recorded| ==> p.sha256(logged[i]) == p.sha256(recorded[i])
  }

  lemma SameDigestsSameEvents(p: Primitives, logged: seq<Bytes>, recorded: seq<Bytes>)
    requires SameDigests(p, logged, recorded)
    ensures EventCollision(p, logged, recorded) || recorded <= logged
  {
  }

  /** An issued layer holds no layer measurements, so nothing but the event log can speak of a kernel. */
  lemma IssuedLayerHasNoKernel(p: Primitives, signer: SigningKey, step: Step, layer: LayerEvidence)
    requires Extract.LayerClaims(layer) == Extract.LayerClaims(LayerOf(p, signer, step))
    ensures Extract.LayerClaims(layer).Ok?
    ensures Extract.ExtractKernelValues(p, Extract.LayerClaims(layer).value).IsFailure()
  {
    hide Extract.EntryDigest, Extract.CommandLine;
    GeneratedCertificateCertifies(signer, p.keyId(Public(signer)), Ec2(Public(step.key)), p.keyId(Public(step.key)),
                                  EventClaims(p, step.extension));
    NoKernelEntry(p, Ec2(Public(step.key)), step.extension);
  }

  lemma NoKernelEntry(p: Primitives, key: CoseKey, x: Extension)
    ensures FindMapClaim(KeyClaims(key) + EventClaims(p, x), KERNEL_LAYER_ID) == None
  {
    FindMapClaimSkips(KeyClaims(key) + EventClaims(p, x), [], KERNEL_LAYER_ID);
    assert KeyClaims(key) + EventClaims(p, x) + [] == KeyClaims(key) + EventClaims(p, x);
  }

  lemma ClaimsRouteNeedsKernel(p: Primitives, root: Extract.RootLayerData, e: Evidence)
    requires Extract.ExtractFromClaims(p, root, e).Ok? && !Extract.ExtractFromClaims(p, root, e).value.Cb?
    ensures e.layers != [] && Extract.LayerClaims(e.layers[0]).Ok?
    ensures Extract.ExtractKernelValues(p, Extract.LayerClaims(e.layers[0]).value).Ok?
  {
    hide Extract.ExtractKernelValues, Extract.ExtractSystemLayer, Extract.ExtractContainerLayer,
         Extract.ExtractApplicationLayer, Extract.ExtractLayerEvents, Extract.LayerClaims;
  }

  /** Accepted evidence that is not CB was read from its log, and the log starts with events of the
      digests the run recorded. */
  lemma AcceptedLogRepeatsRun(p: Primitives, d: Extract.Decoders, s: AttesterState, steps: seq<Step>, e: Evidence,
                              x: Extract.ExtractedEvidence, root: Extract.RootLayerData)
    requires RootOnly(s) && steps != [] && DistinctKeys(s.signingKey, steps)
    requires SameRoot(s, e) && Unforged(p, s.signingKey, steps, e)
    requires VerifyAndExtract(p, d, e) == Ok(x) && x.evidenceValues.Some? && !x.evidenceValues.value.Cb?
    requires e.rootLayer.Some? && Extract.ExtractRootValues(d, e.rootLayer.value) == Ok(root)
    ensures |steps| <= |e.layers| && SameDigests(p, Events(e.eventLog), OriginalEvents(steps))
    ensures Extract.ExtractFromEvents(p, d, root, Events(e.eventLog)) == Ok(x.evidenceValues.value)
  {
    hide VerifyAndExtract, LayerOf, PayloadOf, DistinctKeys, Unforged, RootOnly, SameRoot, VerifyLayers, RootKey,
         ValidateEventsAndLayers, Extract.ExtractApplicationKeyValues, SignedBy, Extract.ExtractRootValues,
         Extract.ExtractFromClaims, Extract.ExtractFromEvents, Extract.LayerClaims, Extract.ExtractKernelValues,
         CapturedInClaims;
    HistoryIsComplete(p, d, s, steps, e);
    AcceptedParts(p, d, e);
    if Events(e.eventLog) == [] {
      ClaimsRouteNeedsKernel(p, root, e);
      SamePayloadSameClaims(p, s.signingKey, steps, e.layers[0], 0);
      IssuedLayerHasNoKernel(p, s.signingKey, steps[0], e.layers[0]);
      assert false;
    }
    ValidatedLog(p, Events(e.eventLog), e.layers, e.applicationKeys, Extract.EventDigest);
    forall i: nat | i < |steps| ensures p.sha256(Events(e.eventLog)[i]) == p.sha256(OriginalEvents(steps)[i]) {
      SamePayloadSameClaims(p, s.signingKey, steps, e.layers[i], i);
      LayerCaptures(p, KeyAt(s.signingKey, steps, i), steps[i], Events(e.eventLog)[i], Extract.EventDigest);
    }
  }

  /** What acceptance by the complete verifier entails before any stack is looked at. */
  lemma AcceptedByVerifier(p: Primitives, d: Extract.Decoders, c: Checks,
                           rootSignature: (bool, RootLayerEvidence, Bytes) -> bool, e: Evidence,
                           teeCertificate: Option<Bytes>, expected: ExpectedValues)
    returns (x: Extract.ExtractedEvidence, root: Extract.RootLayerData, rx: RootExpected)
    requires VerifyWithExpectedValues(p, d, c, rootSignature, e, teeCertificate, Some(expected)).Ok?
    ensures VerifyAndExtract(p, d, e) == Ok(x) && Accepts(c, x, Some(expected))
    ensures e.rootLayer.Some? && Extract.ExtractRootValues(d, e.rootLayer.value) == Ok(root)
    ensures x.evidenceValues.Some? && x.evidenceValues.value.rootLayer == Some(root)
    ensures teeCertificate.Some? && expected.rootLayer == Some(rx)
    ensures rootSignature(rx.amdSev.Some? && rx.amdSev.value.checkVcekCertExpiry, e.rootLayer.value, teeCertificate.value)
  {
    hide VerifyAndExtract, MatchesRoot, MatchesKernel, Extract.ExtractRootValues, Extract.ExtractEvidenceValues,
         VerifyLayers, RootKey, SignedBy, ValidateEventsAndLayers, Extract.ExtractApplicationKeyValues;
    x := VerifyAndExtract(p, d, e).value;
    AcceptedParts(p, d, e);
    ExtractedRoot(p, d, e);
    root := Extract.ExtractRootValues(d, e.rootLayer.value).value;
    rx := expected.rootLayer.value;
  }

  // ---------- Oak Containers ----------

  /** The `i`-th recorded event is a message of its stage, and what it measures is expected. */
  ghost predicate ContainerStageExpected(c: Checks, d: Extract.Decoders, i: nat, event: Bytes, kx: Option<KernelExpected>,
                                         sx: Option<SystemExpected>, cx: Option<ContainerExpected>)
  {
    if i == 0 then
      kx.Some? && exists m :: Records(d, event, Extract.Stage0Url, d.stage0, m) && KernelExpectedBy(c, m, kx.value)
    else if i == 1 then
      sx.Some? && exists m :: RecordsSystem(d, event, m) && LeafExpected(m.systemImage, sx.value.systemImage)
    else
      i == 2 && cx.Some? && exists m :: RecordsContainer(d, event, m) && LeafExpected(m.bundle, cx.value.bundle)
                                        && LeafExpected(m.config, cx.value.config)
  }

  ghost predicate RecordsSystem(d: Extract.Decoders, event: Bytes, m: Extract.SystemLayerData) {
    || Records(d, event, Extract.SystemUrl, d.system, m)
    || Records(d, event, Extract.Stage1Url, d.stage1, Extract.Stage1Measurements(m.systemImage))
  }

  ghost predicate RecordsContainer(d: Extract.Decoders, event: Bytes, m: Extract.ContainerLayerData) {
    || Records(d, event, Extract.ContainerUrl, d.container, m)
    || Records(d, event, Extract.OrchestratorUrl, d.orchestrator, Extract.OrchestratorMeasurements(m.bundle, m.config))
  }

  /** Values of an Oak Containers stack come from three events that record it. */
  lemma ContainersOnlyFromEvents(p: Primitives, d: Extract.Decoders, root: Extract.RootLayerData, events: seq<Bytes>,
                                 values: Extract.EvidenceValues)
    returns (kernel: Extract.Stage0Measurements, system: Extract.SystemLayerData, container: Extract.ContainerLayerData)
    requires Extract.ExtractFromEvents(p, d, root, events) == Ok(values) && values.OakContainers?
    ensures |events| == 3 && Records(d, events[0], Extract.Stage0Url, d.stage0, kernel)
    ensures RecordsSystem(d, events[1], system) && RecordsContainer(d, events[2], container)
    ensures values == Extract.OakContainers(Some(root), Some(Extract.Stage0ToKernelLayer(kernel)), Some(system),
                                            Some(container))
  {
    hide Extract.Stage0ToKernelLayer, Extract.CbLayers;
    var decoded := Extract.DecodeEvents(d, events).value;
    kernel := Extract.DecodePayload(decoded[0], d.stage0).value;
    system, container := values.systemLayer.value, values.containerLayer.value;
  }

  /** Soundness for Oak Containers: if anyone gets the verifier to accept such a stack under the root of
      a finished run, the root was accepted, and every event the run recorded is a message of its stage
      whose measurements were expected, unless the log shows a SHA2-256 collision with it. */
  lemma ContainersAcceptanceBinds(p: Primitives, d: Extract.Decoders, c: Checks,
                                  rootSignature: (bool, RootLayerEvidence, Bytes) -> bool, s: AttesterState,
                                  steps: seq<Step>, e: Evidence, teeCertificate: Option<Bytes>,
                                  rx: Option<RootExpected>, kx: Option<KernelExpected>, sx: Option<SystemExpected>,
                                  cx: Option<ContainerExpected>)
    requires RootOnly(s) && DistinctKeys(s.signingKey, steps)
    requires SameRoot(s, e) && Unforged(p, s.signingKey, steps, e)
    requires VerifyWithExpectedValues(p, d, c, rootSignature, e, teeCertificate, Some(ExpectContainers(rx, kx, sx, cx))).Ok?
    ensures e.rootLayer.Some? && teeCertificate.Some? && rx.Some?
    ensures RootAccepted(d, c, rootSignature, e.rootLayer.value, teeCertificate.value, rx.value)
    ensures |steps| <= 3
    ensures EventCollision(p, Events(e.eventLog), OriginalEvents(steps))
         || forall i: nat :: i < |steps| ==> ContainerStageExpected(c, d, i, steps[i].extension.event, kx, sx, cx)
  {
    hide VerifyWithExpectedValues, RootAccepted, VerifyAndExtract, MatchesRoot, MatchesKernel, MatchesOptional,
         LeafExpected, Extract.ExtractRootValues, Extract.ExtractFromEvents, DistinctKeys, Unforged, SameRoot,
         RootOnly, Records, RecordsSystem, RecordsContainer, KernelExpectedBy, EventCollision,
         Extract.Stage0ToKernelLayer;
    var expected := ExpectContainers(rx, kx, sx, cx);
    var x, root, rootExpected := AcceptedByVerifier(p, d, c, rootSignature, e, teeCertificate, expected);
    RootAcceptedExactly(d, c, rootSignature, e.rootLayer.value, teeCertificate.value, rootExpected);
    if steps != [] {
      AcceptedLogRepeatsRun(p, d, s, steps, e, x, root);
      var events := Events(e.eventLog);
      var kernel, system, container := ContainersOnlyFromEvents(p, d, root, events, x.evidenceValues.value);
      KernelComparison(c, kernel, kx.value);
      LeafExactly(system.systemImage, sx.value.systemImage);
      LeafExactly(container.bundle, cx.value.bundle);
      LeafExactly(container.config, cx.value.config);
      SameDigestsSameEvents(p, events, OriginalEvents(steps));
      if OriginalEvents(steps) <= events {
        forall i: nat | i < |steps| ensures ContainerStageExpected(c, d, i, steps[i].extension.event, kx, sx, cx) {
          assert events[i] == steps[i].extension.event;
        }
      }
    }
  }

  // ---------- Restricted Kernel ----------

  /** The `i`-th recorded event is a message of its stage, and what it measures is expected. */
  ghost predicate KernelStageExpected(c: Checks, d: Extract.Decoders, i: nat, event: Bytes, kx: Option<KernelExpected>,
                                      ax: Option<ApplicationExpected>)
  {
    if i == 0 then
      kx.Some? && exists m :: Records(d, event, Extract.Stage0Url, d.stage0, m) && KernelExpectedBy(c, m, kx.value)
    else
      i == 1 && ax.Some? && exists m :: Records(d, event, Extract.ApplicationUrl, d.application, m)
                                        && ApplicationExpectedBy(m, ax.value)
  }

  /** Values of a Restricted Kernel stack come from two events that record it. */
  lemma RestrictedKernelOnlyFromEvents(p: Primitives, d: Extract.Decoders, root: Extract.RootLayerData, events: seq<Bytes>,
                                       values: Extract.EvidenceValues)
    returns (kernel: Extract.Stage0Measurements, application: Extract.ApplicationLayerData)
    requires Extract.ExtractFromEvents(p, d, root, events) == Ok(values) && values.OakRestrictedKernel?
    ensures |events| == 2 && Records(d, events[0], Extract.Stage0Url, d.stage0, kernel)
    ensures Records(d, events[1], Extract.ApplicationUrl, d.application, application)
    ensures values == Extract.OakRestrictedKernel(Some(root), Some(Extract.Stage0ToKernelLayer(kernel)), Some(application))
  {
    hide Extract.Stage0ToKernelLayer, Extract.CbLayers;
    var decoded := Extract.DecodeEvents(d, events).value;
    kernel := Extract.DecodePayload(decoded[0], d.stage0).value;
    application := values.applicationLayer.value;
  }

  /** Whatever events the log of an accepted Restricted Kernel stack is known to start with were expected. */
  lemma RestrictedKernelStages(p: Primitives, d: Extract.Decoders, c: Checks, e: Evidence, x: Extract.ExtractedEvidence,
                               root: Extract.RootLayerData, recorded: seq<Bytes>, rx: Option<RootExpected>,
                               kx: Option<KernelExpected>, ax: Option<ApplicationExpected>)
    requires Accepts(c, x, Some(ExpectRestrictedKernel(rx, kx, ax))) && x.evidenceValues.Some?
    requires Extract.ExtractFromEvents(p, d, root, Events(e.eventLog)) == Ok(x.evidenceValues.value)
    requires SameDigests(p, Events(e.eventLog), recorded)
    ensures |recorded| <= 2
    ensures EventCollision(p, Events(e.eventLog), recorded)
         || forall i: nat :: i < |recorded| ==> KernelStageExpected(c, d, i, recorded[i], kx, ax)
  {
    hide MatchesRoot, MatchesKernel, MatchesOptional, LeafExpected, Extract.ExtractFromEvents, Records,
         EventCollision, KernelExpectedBy, Extract.Stage0ToKernelLayer;
    var events := Events(e.eventLog);
    var kernel, application := RestrictedKernelOnlyFromEvents(p, d, root, events, x.evidenceValues.value);
    KernelComparison(c, kernel, kx.value);
    LeafExactly(application.binary, ax.value.binary);
    LeafExactly(application.config, ax.value.configuration);
    SameDigestsSameEvents(p, events, recorded);
    if recorded <= events {
      forall i: nat | i < |recorded| ensures KernelStageExpected(c, d, i, recorded[i], kx, ax) {
        assert events[i] == recorded[i];
      }
    }
  }

  /** Soundness for Restricted Kernel: as for Oak Containers, for the events recorded by extensions. */
  lemma RestrictedKernelAcceptanceBinds(p: Primitives, d: Extract.Decoders, c: Checks,
                                        rootSignature: (bool, RootLayerEvidence, Bytes) -> bool, s: AttesterState,
                                        steps: seq<Step>, e: Evidence, teeCertificate: Option<Bytes>,
                                        rx: Option<RootExpected>, kx: Option<KernelExpected>,
                                        ax: Option<ApplicationExpected>)
    requires RootOnly(s) && DistinctKeys(s.signingKey, steps)
    requires SameRoot(s, e) && Unforged(p, s.signingKey, steps, e)
    requires VerifyWithExpectedValues(p, d, c, rootSignature, e, teeCertificate,
                                      Some(ExpectRestrictedKernel(rx, kx, ax))).Ok?
    ensures e.rootLayer.Some? && teeCertificate.Some? && rx.Some?
    ensures RootAccepted(d, c, rootSignature, e.rootLayer.value, teeCertificate.value, rx.value)
    ensures |steps| <= 2
    ensures EventCollision(p, Events(e.eventLog), OriginalEvents(steps))
         || forall i: nat :: i < |steps| ==> KernelStageExpected(c, d, i, steps[i].extension.event, kx, ax)
  {
    hide VerifyWithExpectedValues, RootAccepted, VerifyAndExtract, MatchesRoot, MatchesKernel, MatchesApplication,
         KernelStageExpected, Extract.ExtractRootValues, Extract.ExtractFromEvents, DistinctKeys, Unforged, SameRoot,
         RootOnly, EventCollision, SameDigests;
    var expected := ExpectRestrictedKernel(rx, kx, ax);
    var x, root, rootExpected := AcceptedByVerifier(p, d, c, rootSignature, e, teeCertificate, expected);
    RootAcceptedExactly(d, c, rootSignature, e.rootLayer.value, teeCertificate.value, rootExpected);
    if steps != [] {
      AcceptedLogRepeatsRun(p, d, s, steps, e, x, root);
      RestrictedKernelStages(p, d, c, e, x, root, OriginalEvents(steps), rx, kx, ax);
    }
  }

  // ---------- Restricted Kernel with an honest orchestrator ----------

  /** A claim set whose only additional claim is the digest of `event` captures events of that digest only. */
  lemma CommitsOnlyToEvent(p: Primitives, key: CoseKey, event: Bytes, claims: ClaimsSet, other: Bytes)
    requires claims.rest == KeyClaims(key) + [DigestClaim(p, EVENT_ID, event)]
    requires CapturedInClaims(p, other, Ok(claims), Extract.EventDigest)
    ensures p.sha256(other) == p.sha256(event)
  {
    FindClaimSkips(KeyClaims(key), [DigestClaim(p, EVENT_ID, event)], EVENT_ID);
  }

  /** The claims of the orchestrator's two certificates. */
  lemma OrchestratorClaims(p: Primitives, t: AttesterState, event: Bytes, kemKey: Bytes, key: VerifyingKey, h: Evidence)
    requires Linked(p, t) && RestrictedKernelEvidence(p, t, event, kemKey, key) == Ok(h)
    ensures h.applicationKeys.Some?
    ensures forall payload :: IssuedFor(h.applicationKeys.value, payload) ==>
      && payload.Some? && payload.value.EncodedClaims?
      && (|| payload.value.claims.rest == KeyClaims(Okp(kemKey)) + [DigestClaim(p, EVENT_ID, event)]
          || payload.value.claims.rest == KeyClaims(Ec2(key)) + [DigestClaim(p, EVENT_ID, event)])
  {
    hide KeyClaims, IssuerId;
  }

  /** What a certificate with such a payload captures. */
  lemma IssuedCaptures(p: Primitives, t: AttesterState, event: Bytes, kemKey: Bytes, key: VerifyingKey, h: Evidence,
                       bytes: CertificateBytes, other: Bytes)
    requires Linked(p, t) && RestrictedKernelEvidence(p, t, event, kemKey, key) == Ok(h) && h.applicationKeys.Some?
    requires IssuedFor(h.applicationKeys.value, CertificatePayload(bytes))
    requires CapturedInClaims(p, other, ClaimsFromCertificate(bytes), Extract.EventDigest)
    ensures p.sha256(other) == p.sha256(event)
  {
    hide CapturedInClaims, KeyClaims, RestrictedKernelEvidence, Linked, IssuedFor;
    OrchestratorClaims(p, t, event, kemKey, key, h);
    var claims := CertificatePayload(bytes).value.claims;
    assert ClaimsFromCertificate(bytes) == Ok(claims);
    if claims.rest == KeyClaims(Okp(kemKey)) + [DigestClaim(p, EVENT_ID, event)] {
      CommitsOnlyToEvent(p, Okp(kemKey), event, claims, other);
    } else {
      CommitsOnlyToEvent(p, Ec2(key), event, claims, other);
    }
  }

  /** The certificate that captures the second event of an accepted log: the encryption key certificate
      after one layer, or a second layer. Either is signed by the kernel's key. */
  lemma SecondEventIsCaptured(p: Primitives, s: AttesterState, step: Step, e: Evidence, last: VerifyingKey)
    returns (cert: CoseSign1)
    requires DistinctKeys(s.signingKey, [step]) && Unforged(p, s.signingKey, [step], e)
    requires VerifyLayers(Public(s.signingKey), e.layers) == Ok(last) && e.layers != []
    requires e.applicationKeys.Some? && SignedBy(last, e.applicationKeys.value.encryption)
    requires |Events(e.eventLog)| == 2
    requires ValidateEventsAndLayers(p, Events(e.eventLog), e.layers, e.applicationKeys, Extract.EventDigest).Ok?
    ensures Presents(e, cert) && VerifySignature(Public(step.key), cert)
    ensures CapturedInClaims(p, Events(e.eventLog)[1], ClaimsFromCertificate(EncodedCert(cert)), Extract.EventDigest)
  {
    hide CapturedInClaims, LayerOf, ValidateEventsAndLayers, Unforged, DistinctKeys, ClaimsFromCertificate;
    ValidatedLog(p, Events(e.eventLog), e.layers, e.applicationKeys, Extract.EventDigest);
    assert KeyAt(s.signingKey, [step], 0) == s.signingKey;
    AcceptedLayerIsIssued(p, s.signingKey, [step], e, 0);
    if |e.layers| == 1 {
      assert e.layers[1..] == [];
      cert := e.applicationKeys.value.encryption.cert;
    } else {
      assert e.layers[1..][0] == e.layers[1];
      cert := e.layers[1].ecaCertificate.cert;
      assert e.layers[1] == LayerEvidence(EncodedCert(cert));
    }
  }

  /** Soundness for Restricted Kernel when the orchestrator is honest too: what it recorded about the
      application was expected as well, although no layer was issued for it. */
  lemma OrchestratorAcceptanceBinds(p: Primitives, d: Extract.Decoders, c: Checks,
                                    rootSignature: (bool, RootLayerEvidence, Bytes) -> bool, s: AttesterState, step: Step,
                                    t: AttesterState, event: Bytes, kemKey: Bytes, key: VerifyingKey, h: Evidence,
                                    e: Evidence, teeCertificate: Option<Bytes>, rx: Option<RootExpected>,
                                    kx: Option<KernelExpected>, ax: Option<ApplicationExpected>)
    requires RootOnly(s) && DistinctKeys(s.signingKey, [step])
    requires Run(p, s, [step]) == Ok(t) && RestrictedKernelEvidence(p, t, event, kemKey, key) == Ok(h)
    requires SameRoot(s, e) && Unforged(p, s.signingKey, [step], e) && HeldKeyUnforged(step.key, h, e)
    requires VerifyWithExpectedValues(p, d, c, rootSignature, e, teeCertificate,
                                      Some(ExpectRestrictedKernel(rx, kx, ax))).Ok?
    ensures EventCollision(p, Events(e.eventLog), [step.extension.event, event])
         || (KernelStageExpected(c, d, 0, step.extension.event, kx, ax) && KernelStageExpected(c, d, 1, event, kx, ax))
  {
    hide VerifyWithExpectedValues, RootAccepted, VerifyAndExtract, MatchesRoot, MatchesKernel, MatchesApplication,
         KernelStageExpected, Extract.ExtractRootValues, Extract.ExtractFromEvents, DistinctKeys, Unforged, RootOnly,
         EventCollision, Run, RestrictedKernelEvidence, Presents, VerifySignature, IssuedFor, CapturedInClaims,
         ValidateEventsAndLayers, SignedBy, VerifyLayers, RootKey, Linked, Extract.ExtractEvidenceValues,
         Extract.ExtractApplicationKeyValues, Accepts;
    var expected := ExpectRestrictedKernel(rx, kx, ax);
    var x, root, rootExpected := AcceptedByVerifier(p, d, c, rootSignature, e, teeCertificate, expected);
    AcceptsKind(c, x, rx, kx, ax);
    AcceptedLogRepeatsRun(p, d, s, [step], e, x, root);
    var kernel, application := RestrictedKernelOnlyFromEvents(p, d, root, Events(e.eventLog), x.evidenceValues.value);
    AcceptedParts(p, d, e);
    var cert := SecondEventIsCaptured(p, s, step, e, VerifyLayers(Public(s.signingKey), e.layers).value);
    RootOnlyIsLinked(p, s);
    RunClosedForm(p, s, [step]);
    IssuedCaptures(p, t, event, kemKey, key, h, EncodedCert(cert), Events(e.eventLog)[1]);
    assert OriginalEvents([step])[0] == step.extension.event;
    var recorded := [step.extension.event, event];
    assert SameDigests(p, Events(e.eventLog), recorded);
    RestrictedKernelStages(p, d, c, e, x, root, recorded, rx, kx, ax);
    assert recorded[0] == step.extension.event && recorded[1] == event;
  }

  lemma AcceptsKind(c: Checks, x: Extract.ExtractedEvidence, rx: Option<RootExpected>, kx: Option<KernelExpected>,
                    ax: Option<ApplicationExpected>)
    requires Accepts(c, x, Some(ExpectRestrictedKernel(rx, kx, ax)))
    ensures x.evidenceValues.Some? && x.evidenceValues.value.OakRestrictedKernel?
  {
  }

  /** The orchestrator's own evidence meets these assumptions. */
  lemma OrchestratorEvidenceIsUnforged(p: Primitives, s: AttesterState, step: Step, t: AttesterState, event: Bytes,
                                       kemKey: Bytes, key: VerifyingKey, h: Evidence)
    requires RootOnly(s) && DistinctKeys(s.signingKey, [step])
    requires Run(p, s, [step]) == Ok(t) && RestrictedKernelEvidence(p, t, event, kemKey, key) == Ok(h)
    ensures SameRoot(s, h) && Unforged(p, s.signingKey, [step], h) && HeldKeyUnforged(step.key, h, h)
  {
    hide Run, WithKeys, RootOnly, RootKey, LayerOf, IssuedByHolder, IssuedBy, Extract.ExtractApplicationKeyValues,
         VerifySignature;
    var k := OrchestratorKeys(p, event, kemKey, key);
    var before := WithKeys(p, t, k).value;
    HonestEvidenceIsUnforged(p, s, [step], k, before);
    ClosedRunShape(p, s, [step], k, before);
    SameRootLayerSameKey(before, h);
    assert forall cert :: Presents(h, cert) <==> Presents(before, cert);
    assert KeyAt(s.signingKey, [step], 0) == s.signingKey && KeyAt(s.signingKey, [step], 1) == step.key;
    LayerOfLinks(p, s.signingKey, step);
    assert |h.layers| == 1 && h.layers[0] == LayerOf(p, s.signingKey, step);
    forall cert | Presents(h, cert) && VerifySignature(Public(step.key), cert)
      ensures IssuedFor(h.applicationKeys.value, cert.payload)
    {
    }
  }
}
