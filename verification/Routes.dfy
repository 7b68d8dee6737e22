/** Measurements can be read from the event log or from certificate claims.
    These theorems say when the two routes give the same answer. */
module Routes {
  import opened Prelude
  import opened Certificates
  import opened EvidenceTypes
  import opened Dice
  import opened DiceRuns
  import opened Digests
  import opened Extract
  import opened Verifier
  import opened ChainTheorems
  import opened EndToEnd

  /** The same evidence without its event log, which forces the claims route. */
  function WithoutLog(e: Evidence): (r: Evidence) {
    e.(eventLog := None)
  }

  // ---------- CB ----------

  lemma CbLayersOf(p: Primitives, event: Bytes, rest: seq<Bytes>)
    ensures CbLayers(p, [event] + rest) == [EventData(Some(Sha256Digest(p.sha256(event))))] + CbLayers(p, rest)
  {
  }

  lemma {:induction false} IssuedLayersYieldDigests(p: Primitives, first: SigningKey, steps: seq<Step>)
    ensures ExtractLayerEvents(p, IssuedLayers(p, first, steps)) == Ok(CbLayers(p, OriginalEvents(steps)))
    decreases |steps|
  {
    hide LayerOf, ExtractEventData, Extract.LayerClaims, CbLayers;
    if steps == [] {
      assert CbLayers(p, OriginalEvents(steps)) == [];
    } else {
      var rest := steps[1..];
      LayerEventData(p, first, steps[0]);
      DropFirst(LayerOf(p, first, steps[0]), IssuedLayers(p, steps[0].key, rest));
      IssuedLayersYieldDigests(p, steps[0].key, rest);
      CbLayersOf(p, steps[0].extension.event, OriginalEvents(rest));
    }
  }

  /** The caller's additional claims describe a container or an enclave application. */
  predicate DescribesWorkload(p: Primitives, additional: Claims) {
    var claims := ClaimsSet(None, None, additional);
    ExtractContainerLayer(p, claims).Ok? || ExtractApplicationLayer(p, claims).Ok?
  }

  /** The claims route on a certificate with these additional claims. */
  lemma KeyClaimsHideNothing(p: Primitives, key: CoseKey, additional: Claims, claims: ClaimsSet)
    requires claims.rest == KeyClaims(key) + additional
    ensures ExtractContainerLayer(p, claims) == ExtractContainerLayer(p, ClaimsSet(None, None, additional))
    ensures ExtractApplicationLayer(p, claims) == ExtractApplicationLayer(p, ClaimsSet(None, None, additional))
  {
    hide EntryDigest;
    FindMapClaimSkips(KeyClaims(key), additional, CONTAINER_IMAGE_LAYER_ID);
    FindMapClaimSkips(KeyClaims(key), additional, ENCLAVE_APPLICATION_LAYER_ID);
  }

  lemma ClaimsRouteKind(p: Primitives, root: RootLayerData, e: Evidence, final: ClaimsSet, layers: seq<EventData>)
    requires e.applicationKeys.Some? && ClaimsFromCertificate(e.applicationKeys.value.encryption) == Ok(final)
    requires ExtractLayerEvents(p, e.layers) == Ok(layers)
    ensures if ExtractContainerLayer(p, final).Ok? || ExtractApplicationLayer(p, final).Ok?
            then ExtractFromClaims(p, root, e).Ok? ==> !ExtractFromClaims(p, root, e).value.Cb?
            else ExtractFromClaims(p, root, e) == Ok(Cb(Some(root), layers))
  {
    hide ExtractLayerEvents, ExtractKernelValues, ExtractSystemLayer, ExtractContainerLayer, ExtractApplicationLayer,
         Extract.LayerClaims;
  }

  /** A container in the final claims comes before an application; each needs its own number of layers. */
  lemma ClaimsRouteShape(p: Primitives, root: RootLayerData, e: Evidence, final: ClaimsSet)
    requires e.applicationKeys.Some? && ClaimsFromCertificate(e.applicationKeys.value.encryption) == Ok(final)
    ensures var container, application, r :=
        ExtractContainerLayer(p, final).Ok?, ExtractApplicationLayer(p, final).Ok?, ExtractFromClaims(p, root, e);
      && (container && |e.layers| != 2 ==> r == Err)
      && (!container && application && |e.layers| != 1 ==> r == Err)
      && (container && r.Ok? ==> r.value.OakContainers?)
      && (!container && application && r.Ok? ==> r.value.OakRestrictedKernel?)
      && (!container && !application && r.Ok? ==> r.value.Cb?)
  {
    hide ExtractLayerEvents, ExtractKernelValues, ExtractSystemLayer, ExtractContainerLayer, ExtractApplicationLayer,
         Extract.LayerClaims;
  }

  /** A kernel command line claim that is not text makes extraction panic; a missing one is no error. */
  lemma CommandLineOutcomes(entries: seq<(Value, Value)>)
    ensures CommandLine(entries).Panic? <==>
              FindEntry(entries, KERNEL_COMMANDLINE_ID).Some? && !FindEntry(entries, KERNEL_COMMANDLINE_ID).value.Text?
    ensures CommandLine(entries) == Ok(None) <==> FindEntry(entries, KERNEL_COMMANDLINE_ID).None?
    ensures !CommandLine(entries).Err?
  {
  }

  /** Keys that are not certified as COSE keys are taken from plain claims, each from its own certificate. */
  lemma ClaimedKeysAreExtracted(p: Primitives, keys: ApplicationKeys, encryption: ClaimsSet, signing: ClaimsSet, a: Bytes,
                                b: Bytes)
    requires ClaimsFromCertificate(keys.encryption) == Ok(encryption) && ClaimsFromCertificate(keys.signing) == Ok(signing)
    requires FindClaim(encryption.rest, APPLICATION_KEY_ID) == Some(ByteString(a))
    requires FindClaim(signing.rest, APPLICATION_KEY_ID) == Some(ByteString(b))
    requires FindBytesClaim(encryption.rest, SUBJECT_PUBLIC_KEY_ID) == None
          || FindBytesClaim(signing.rest, SUBJECT_PUBLIC_KEY_ID) == None
    ensures ExtractApplicationKeyValues(p, keys) == Ok(ApplicationKeyValues(a, b))
  {
  }

  /** CB: for every run closed with application keys, the event log and the certificate claims
      give the same values exactly when the caller's additional claims do not describe a
      container or application; otherwise the claims route does not even answer CB. */
  lemma CbRoutesAgree(p: Primitives, d: Decoders, s: AttesterState, steps: seq<Step>, k: KeyRequest, e: Evidence)
    requires RootOnly(s) && Closes(p, s, steps, k, e) && CbEvents(d, OriginalEvents(steps))
    requires ExtractRootValues(d, s.evidence.rootLayer.value).Ok?
    ensures ExtractEvidenceValues(p, d, e).Ok?
    ensures ExtractEvidenceValues(p, d, WithoutLog(e)) == ExtractEvidenceValues(p, d, e)
       <==> !DescribesWorkload(p, k.layerData.additionalClaims)
  {
    hide Closes, RootOnly, ExtractEvidenceValues, ExtractRootValues, CbEvents, ClaimsFromCertificate, CbLayers,
         RootKey, ExtractContainerLayer, ExtractApplicationLayer, ExtractLayerEvents, ExtractFromClaims, LayerOf,
         KeyClaims, ExtractApplicationKeyValues, IssuedByHolder;
    ClosedRunShape(p, s, steps, k, e);
    var final := EncryptionClaims(p, s, steps, k, e);
    var root := ExtractRootValues(d, e.rootLayer.value).value;
    CbExtraction(p, d, e, root);
    IssuedLayersYieldDigests(p, s.signingKey, steps);
    KeyClaimsHideNothing(p, Okp(k.kemKey), k.layerData.additionalClaims, final);
    ClaimsRouteKind(p, root, WithoutLog(e), final, CbLayers(p, OriginalEvents(steps)));
    WithoutLogUsesClaims(p, d, e, root);
  }

  /** The claims of the encryption key certificate of a closed run. */
  lemma EncryptionClaims(p: Primitives, s: AttesterState, steps: seq<Step>, k: KeyRequest, e: Evidence)
    returns (final: ClaimsSet)
    requires RootOnly(s) && Closes(p, s, steps, k, e)
    ensures e.applicationKeys.Some? && ClaimsFromCertificate(e.applicationKeys.value.encryption) == Ok(final)
    ensures final.rest == KeyClaims(Okp(k.kemKey)) + k.layerData.additionalClaims
  {
    hide Linked, LayerOf, Run, WithKeys, ClaimsFromCertificate, KeyClaims;
    RootOnlyIsLinked(p, s);
    RunClosedForm(p, s, steps);
    final := KeysIn(p, RunResult(p, s, steps), k, e);
  }

  /** The certificates of application keys carry the claims that were asked for. */
  lemma KeysIn(p: Primitives, t: AttesterState, k: KeyRequest, e: Evidence) returns (final: ClaimsSet)
    requires Linked(p, t) && WithKeys(p, t, k) == Ok(e)
    ensures e.applicationKeys.Some? && ClaimsFromCertificate(e.applicationKeys.value.encryption) == Ok(final)
    ensures final.rest == KeyClaims(Okp(k.kemKey)) + k.layerData.additionalClaims
  {
    final := ClaimsFromCertificate(e.applicationKeys.value.encryption).value;
  }

  lemma WithoutLogUsesClaims(p: Primitives, d: Decoders, e: Evidence, root: RootLayerData)
    requires e.rootLayer.Some? && ExtractRootValues(d, e.rootLayer.value) == Ok(root)
    ensures ExtractEvidenceValues(p, d, WithoutLog(e)) == ExtractFromClaims(p, root, WithoutLog(e))
  {
    hide ExtractFromClaims, ExtractRootValues;
  }

  // ---------- Oak Containers and Restricted Kernel ----------

  function Entry(id: int, digest: Bytes): (r: (Value, Value)) {
    (Integer(id), DigestMap(digest))
  }

  /** The kernel layer claim that carries the measurements of a `Stage0Measurements` event. */
  function KernelEntries(m: Stage0Measurements): (r: seq<(Value, Value)>) {
    [ Entry(KERNEL_MEASUREMENT_ID, m.kernelMeasurement),
      (Integer(KERNEL_COMMANDLINE_ID), Text(m.kernelCmdline)),
      Entry(SETUP_DATA_MEASUREMENT_ID, m.setupDataDigest),
      Entry(INITRD_MEASUREMENT_ID, m.ramDiskDigest),
      Entry(MEMORY_MAP_MEASUREMENT_ID, m.memoryMapDigest),
      Entry(ACPI_MEASUREMENT_ID, m.acpiDigest) ]
  }

  lemma {:induction false} FindEntryAt(entries: seq<(Value, Value)>, id: int, i: nat)
    requires i < |entries| && entries[i].0 == Integer(id)
    requires forall j: nat :: j < i ==> entries[j].0 != Integer(id)
    ensures FindEntry(entries, id) == Some(entries[i].1)
  {
    if i > 0 {
      FindEntryAt(entries[1..], id, i - 1);
    }
  }

  lemma EntryDigestAt(p: Primitives, entries: seq<(Value, Value)>, id: int, i: nat, digest: Bytes)
    requires i < |entries| && entries[i] == Entry(id, digest)
    requires forall j: nat :: j < i ==> entries[j].0 != Integer(id)
    ensures EntryDigest(p, entries, id) == Ok(Sha256Digest(digest))
  {
    FindEntryAt(entries, id, i);
  }

  /** Reading a kernel layer claim gives what converting the event gives. */
  lemma KernelClaimMatchesEvent(p: Primitives, claims: ClaimsSet, m: Stage0Measurements)
    requires FindMapClaim(claims.rest, KERNEL_LAYER_ID) == Some(KernelEntries(m))
    ensures ExtractKernelValues(p, claims) == Ok(Stage0ToKernelLayer(m))
  {
    hide EntryDigest, FindEntry;
    var entries := KernelEntries(m);
    EntryDigestAt(p, entries, KERNEL_MEASUREMENT_ID, 0, m.kernelMeasurement);
    FindEntryAt(entries, KERNEL_COMMANDLINE_ID, 1);
    EntryDigestAt(p, entries, SETUP_DATA_MEASUREMENT_ID, 2, m.setupDataDigest);
    EntryDigestAt(p, entries, INITRD_MEASUREMENT_ID, 3, m.ramDiskDigest);
    EntryDigestAt(p, entries, MEMORY_MAP_MEASUREMENT_ID, 4, m.memoryMapDigest);
    EntryDigestAt(p, entries, ACPI_MEASUREMENT_ID, 5, m.acpiDigest);
  }

  lemma TwoEntries(p: Primitives, first: int, a: Bytes, second: int, b: Bytes)
    requires first != second
    ensures EntryDigest(p, [Entry(first, a), Entry(second, b)], first) == Ok(Sha256Digest(a))
    ensures EntryDigest(p, [Entry(first, a), Entry(second, b)], second) == Ok(Sha256Digest(b))
  {
    EntryDigestAt(p, [Entry(first, a), Entry(second, b)], first, 0, a);
    EntryDigestAt(p, [Entry(first, a), Entry(second, b)], second, 1, b);
  }

  /** The certificates of `e` carry these measurements of an Oak Containers stack. */
  ghost predicate ContainerClaims(e: Evidence, kernel: Stage0Measurements, system: Bytes, bundle: Bytes, config: Bytes) {
    && |e.layers| == 2 && e.applicationKeys.Some?
    && ClaimsFromCertificate(e.layers[0].ecaCertificate).Ok? && ClaimsFromCertificate(e.layers[1].ecaCertificate).Ok?
    && ClaimsFromCertificate(e.applicationKeys.value.encryption).Ok?
    && FindMapClaim(ClaimsFromCertificate(e.layers[0].ecaCertificate).value.rest, KERNEL_LAYER_ID)
       == Some(KernelEntries(kernel))
    && FindMapClaim(ClaimsFromCertificate(e.layers[1].ecaCertificate).value.rest, SYSTEM_IMAGE_LAYER_ID)
       == Some([Entry(LAYER_2_CODE_MEASUREMENT_ID, system)])
    && FindMapClaim(ClaimsFromCertificate(e.applicationKeys.value.encryption).value.rest, CONTAINER_IMAGE_LAYER_ID)
       == Some([Entry(LAYER_3_CODE_MEASUREMENT_ID, bundle), Entry(FINAL_LAYER_CONFIG_MEASUREMENT_ID, config)])
  }

  /** One event of a log decodes to a message of the given type. */
  ghost predicate Records<T>(d: Decoders, event: Bytes, url: TypeUrl, decode: Bytes -> Option<T>, message: T) {
    && d.event(event).Some? && HasType(d.event(event).value, url)
    && decode(d.event(event).value.event.value.value) == Some(message)
  }

  /** These events record the measurements of an Oak Containers stack, as layer data or in the older
      messages of stage 1 and the orchestrator, which carry no container keys. */
  ghost predicate ContainerEvents(d: Decoders, events: seq<Bytes>, kernel: Stage0Measurements, system: SystemLayerData,
                                  container: ContainerLayerData)
  {
    && |events| == 3
    && Records(d, events[0], Stage0Url, d.stage0, kernel)
    && (|| (&& Records(d, events[1], SystemUrl, d.system, system)
            && Records(d, events[2], ContainerUrl, d.container, container))
        || (&& Records(d, events[1], Stage1Url, d.stage1, Stage1Measurements(system.systemImage))
            && Records(d, events[2], OrchestratorUrl, d.orchestrator,
                       OrchestratorMeasurements(container.bundle, container.config))
            && container == ContainerLayerData(container.bundle, container.config, [], [], [])))
  }

  lemma RecordedPayload<T>(d: Decoders, event: Bytes, url: TypeUrl, decode: Bytes -> Option<T>, message: T)
    requires Records(d, event, url, decode, message)
    ensures d.event(event).Some? && HasType(d.event(event).value, url)
    ensures DecodePayload(d.event(event).value, decode) == Ok(message)
    ensures forall other :: HasType(d.event(event).value, other) <==> other == url
  {
  }

  lemma ContainersFromEvents(p: Primitives, d: Decoders, root: RootLayerData, events: seq<Bytes>,
                             kernel: Stage0Measurements, system: SystemLayerData, container: ContainerLayerData)
    requires ContainerEvents(d, events, kernel, system, container)
    ensures ExtractFromEvents(p, d, root, events)
         == Ok(OakContainers(Some(root), Some(Stage0ToKernelLayer(kernel)), Some(system), Some(container)))
  {
    hide Stage0ToKernelLayer, CbLayers, Records, HasType, DecodePayload;
    RecordedPayload(d, events[0], Stage0Url, d.stage0, kernel);
    if Records(d, events[1], SystemUrl, d.system, system) && Records(d, events[2], ContainerUrl, d.container, container) {
      RecordedPayload(d, events[1], SystemUrl, d.system, system);
      RecordedPayload(d, events[2], ContainerUrl, d.container, container);
    } else {
      RecordedPayload(d, events[1], Stage1Url, d.stage1, Stage1Measurements(system.systemImage));
      RecordedPayload(d, events[2], OrchestratorUrl, d.orchestrator,
                      OrchestratorMeasurements(container.bundle, container.config));
    }
    assert DecodeEvents(d, events).Ok?;
  }

  lemma ContainersFromClaims(p: Primitives, root: RootLayerData, e: Evidence, kernel: Stage0Measurements, system: Bytes,
                             bundle: Bytes, config: Bytes)
    requires ContainerClaims(e, kernel, system, bundle, config)
    ensures ExtractFromClaims(p, root, e)
         == Ok(OakContainers(Some(root), Some(Stage0ToKernelLayer(kernel)),
                             Some(SystemLayerData(Some(Sha256Digest(system)))),
                             Some(ContainerLayerData(Some(Sha256Digest(bundle)), Some(Sha256Digest(config)), [], [], []))))
  {
    hide EntryDigest, FindMapClaim, ExtractKernelValues, Stage0ToKernelLayer, ClaimsFromCertificate;
    KernelClaimMatchesEvent(p, ClaimsFromCertificate(e.layers[0].ecaCertificate).value, kernel);
    EntryDigestAt(p, [Entry(LAYER_2_CODE_MEASUREMENT_ID, system)], LAYER_2_CODE_MEASUREMENT_ID, 0, system);
    TwoEntries(p, LAYER_3_CODE_MEASUREMENT_ID, bundle, FINAL_LAYER_CONFIG_MEASUREMENT_ID, config);
  }

  /** Oak Containers: when claims and events carry the same measurements, both routes report the
      same stack; only the container's public keys are lost on the claims route. */
  lemma ContainerRoutesAgree(p: Primitives, d: Decoders, e: Evidence, root: RootLayerData, kernel: Stage0Measurements,
                             system: Bytes, container: ContainerLayerData, bundle: Bytes, config: Bytes)
    requires e.rootLayer.Some? && ExtractRootValues(d, e.rootLayer.value) == Ok(root)
    requires ContainerEvents(d, Events(e.eventLog), kernel, SystemLayerData(Some(Sha256Digest(system))), container)
    requires container.bundle == Some(Sha256Digest(bundle)) && container.config == Some(Sha256Digest(config))
    requires ContainerClaims(e, kernel, system, bundle, config)
    ensures ExtractEvidenceValues(p, d, e).Ok? && ExtractEvidenceValues(p, d, e).value.OakContainers?
    ensures ExtractEvidenceValues(p, d, e).value.containerLayer == Some(container)
    ensures ExtractEvidenceValues(p, d, WithoutLog(e))
         == Ok(ExtractEvidenceValues(p, d, e).value.(containerLayer := Some(
              container.(hybridEncryptionPublicKey := [], signingPublicKey := [], sessionBindingPublicKey := []))))
  {
    hide ExtractFromClaims, ExtractFromEvents, ExtractRootValues, Stage0ToKernelLayer;
    ContainersFromEvents(p, d, root, Events(e.eventLog), kernel, SystemLayerData(Some(Sha256Digest(system))), container);
    ContainersFromClaims(p, root, WithoutLog(e), kernel, system, bundle, config);
    WithoutLogUsesClaims(p, d, e, root);
  }

  /** The certificates of `e` carry these measurements of a Restricted Kernel stack. */
  ghost predicate RestrictedKernelClaims(p: Primitives, e: Evidence, kernel: Stage0Measurements, binary: Bytes,
                                         config: Bytes)
  {
    && |e.layers| == 1 && e.applicationKeys.Some?
    && ClaimsFromCertificate(e.layers[0].ecaCertificate).Ok?
    && ClaimsFromCertificate(e.applicationKeys.value.encryption).Ok?
    && FindMapClaim(ClaimsFromCertificate(e.layers[0].ecaCertificate).value.rest, KERNEL_LAYER_ID)
       == Some(KernelEntries(kernel))
    && FindMapClaim(ClaimsFromCertificate(e.applicationKeys.value.encryption).value.rest, ENCLAVE_APPLICATION_LAYER_ID)
       == Some([Entry(LAYER_2_CODE_MEASUREMENT_ID, binary), Entry(FINAL_LAYER_CONFIG_MEASUREMENT_ID, config)])
    && !ExtractContainerLayer(p, ClaimsFromCertificate(e.applicationKeys.value.encryption).value).Ok?
  }

  ghost predicate RestrictedKernelEvents(d: Decoders, events: seq<Bytes>, kernel: Stage0Measurements,
                                         application: ApplicationLayerData)
  {
    && |events| == 2
    && Records(d, events[0], Stage0Url, d.stage0, kernel)
    && Records(d, events[1], ApplicationUrl, d.application, application)
  }

  lemma RestrictedKernelFromEvents(p: Primitives, d: Decoders, root: RootLayerData, events: seq<Bytes>,
                                   kernel: Stage0Measurements, application: ApplicationLayerData)
    requires RestrictedKernelEvents(d, events, kernel, application)
    ensures ExtractFromEvents(p, d, root, events)
         == Ok(OakRestrictedKernel(Some(root), Some(Stage0ToKernelLayer(kernel)), Some(application)))
  {
    hide Stage0ToKernelLayer, CbLayers, Records, HasType, DecodePayload;
    RecordedPayload(d, events[0], Stage0Url, d.stage0, kernel);
    RecordedPayload(d, events[1], ApplicationUrl, d.application, application);
    assert DecodeEvents(d, events).Ok?;
  }

  /** Restricted Kernel: when claims and events carry the same measurements, both routes agree. */
  lemma RestrictedKernelRoutesAgree(p: Primitives, d: Decoders, e: Evidence, root: RootLayerData,
                                    kernel: Stage0Measurements, binary: Bytes, config: Bytes)
    requires e.rootLayer.Some? && ExtractRootValues(d, e.rootLayer.value) == Ok(root)
    requires RestrictedKernelEvents(d, Events(e.eventLog), kernel,
                                    ApplicationLayerData(Some(Sha256Digest(binary)), Some(Sha256Digest(config))))
    requires RestrictedKernelClaims(p, e, kernel, binary, config)
    ensures ExtractEvidenceValues(p, d, e).Ok? && ExtractEvidenceValues(p, d, e).value.OakRestrictedKernel?
    ensures ExtractEvidenceValues(p, d, WithoutLog(e)) == ExtractEvidenceValues(p, d, e)
  {
    hide ExtractFromEvents, ExtractRootValues, Stage0ToKernelLayer, ExtractKernelValues, FindMapClaim, EntryDigest,
         ClaimsFromCertificate, ExtractContainerLayer;
    RestrictedKernelFromEvents(p, d, root, Events(e.eventLog), kernel,
                               ApplicationLayerData(Some(Sha256Digest(binary)), Some(Sha256Digest(config))));
    KernelClaimMatchesEvent(p, ClaimsFromCertificate(e.layers[0].ecaCertificate).value, kernel);
    TwoEntries(p, LAYER_2_CODE_MEASUREMENT_ID, binary, FINAL_LAYER_CONFIG_MEASUREMENT_ID, config);
    WithoutLogUsesClaims(p, d, e, root);
  }
}
