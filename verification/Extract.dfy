/** Reading measurements and application keys back out of evidence, from the
    event log when there is one and from certificate claims otherwise. */
module Extract {
  import opened Prelude
  import opened Certificates
  import opened EvidenceTypes
  import opened Digests

  /** The type URLs the code compares with: `type.googleapis.com/oak.attestation.v1.` followed by
      Stage0Measurements, Stage1Measurements, OrchestratorMeasurements, SystemLayerData,
      ContainerLayerData and ApplicationLayerData. */
  datatype TypeUrl =
    Stage0Url | Stage1Url | OrchestratorUrl | SystemUrl | ContainerUrl | ApplicationUrl | OtherUrl(url: string)

  datatype Any = Any(typeUrl: TypeUrl, value: Bytes)

  datatype Event = Event(event: Option<Any>)

  datatype Stage0Measurements = Stage0Measurements(
    kernelMeasurement: Bytes, acpiDigest: Bytes, memoryMapDigest: Bytes, ramDiskDigest: Bytes,
    setupDataDigest: Bytes, kernelCmdline: string)

  datatype KernelLayerData = KernelLayerData(
    kernelImage: Option<RawDigest>, kernelSetupData: Option<RawDigest>, kernelRawCmdLine: Option<string>,
    initRamFs: Option<RawDigest>, memoryMap: Option<RawDigest>, acpi: Option<RawDigest>)

  datatype SystemLayerData = SystemLayerData(systemImage: Option<RawDigest>)

  datatype ContainerLayerData = ContainerLayerData(
    bundle: Option<RawDigest>, config: Option<RawDigest>, hybridEncryptionPublicKey: Bytes,
    signingPublicKey: Bytes, sessionBindingPublicKey: Bytes)

  datatype ApplicationLayerData = ApplicationLayerData(binary: Option<RawDigest>, config: Option<RawDigest>)

  datatype Stage1Measurements = Stage1Measurements(systemImage: Option<RawDigest>)

  datatype OrchestratorMeasurements =
    OrchestratorMeasurements(containerImage: Option<RawDigest>, config: Option<RawDigest>)

  datatype EventData = EventData(event: Option<RawDigest>)

  datatype AmdReport = AmdReport(initialMeasurement: Bytes, otherFields: Bytes)

  datatype Report = SevSnp(amd: AmdReport) | Tdx(quote: Bytes) | Fake(reportData: Bytes)

  datatype RootLayerData = RootLayerData(report: Option<Report>)

  datatype EvidenceValues =
    | OakRestrictedKernel(rootLayer: Option<RootLayerData>, kernelLayer: Option<KernelLayerData>,
                          applicationLayer: Option<ApplicationLayerData>)
    | OakContainers(rootLayer: Option<RootLayerData>, kernelLayer: Option<KernelLayerData>,
                    systemLayer: Option<SystemLayerData>, containerLayer: Option<ContainerLayerData>)
    | Cb(rootLayer: Option<RootLayerData>, layers: seq<EventData>)

  datatype ExtractedEvidence =
    ExtractedEvidence(evidenceValues: Option<EvidenceValues>, encryptionPublicKey: Bytes, signingPublicKey: Bytes)

  /** The message decoders and report parsers the code calls. */
  datatype Decoders = Decoders(
    event: Bytes -> Option<Event>,
    stage0: Bytes -> Option<Stage0Measurements>,
    stage1: Bytes -> Option<Stage1Measurements>,
    orchestrator: Bytes -> Option<OrchestratorMeasurements>,
    system: Bytes -> Option<SystemLayerData>,
    container: Bytes -> Option<ContainerLayerData>,
    application: Bytes -> Option<ApplicationLayerData>,
    amdReport: Bytes -> Option<AmdReport>,       // parse, validate and convert
    fakeReportData: Bytes -> Option<Bytes>)      // parse and validate, then report_data

  datatype EvidenceType = TypeOakContainers | TypeLegacyOakContainers | TypeOakRestrictedKernel | TypeCb

  predicate HasType(e: Event, url: TypeUrl) {
    e.event.Some? && e.event.value.typeUrl == url
  }

  function Classify(events: seq<Event>): (r: Outcome<EvidenceType>) {
    if |events| == 3 && HasType(events[0], Stage0Url) && HasType(events[1], SystemUrl)
       && HasType(events[2], ContainerUrl) then Ok(TypeOakContainers)
    else if |events| == 3 && HasType(events[0], Stage0Url) && HasType(events[1], Stage1Url)
            && HasType(events[2], OrchestratorUrl) then Ok(TypeLegacyOakContainers)
    else if |events| == 2 && HasType(events[0], Stage0Url) && HasType(events[1], ApplicationUrl) then
      Ok(TypeOakRestrictedKernel)
    else if |events| >= 3 then Ok(TypeCb)
    else Err
  }

  function DecodeEvents(d: Decoders, encoded: seq<Bytes>): (r: Outcome<seq<Event>>)
    ensures r.Ok? <==> forall e :: e in encoded ==> d.event(e).Some?
    ensures r.Ok? ==> |r.value| == |encoded| && forall i: nat :: i < |encoded| ==> Some(r.value[i]) == d.event(encoded[i])
    ensures !r.Panic?
    decreases |encoded|
  {
    if encoded == [] then Ok([])
    else
      assert encoded == [encoded[0]] + encoded[1..];
      var first :- OkOr(d.event(encoded[0]));
      var rest :- DecodeEvents(d, encoded[1..]);
      Ok([first] + rest)
  }

  /** The payload of an event, run through a decoder. */
  function DecodePayload<T>(e: Event, decode: Bytes -> Option<T>): (r: Outcome<T>) {
    var any :- OkOr(e.event);
    OkOr(decode(any.value))
  }

  function Stage0ToKernelLayer(m: Stage0Measurements): (r: KernelLayerData) {
    KernelLayerData(
      Some(Sha256Digest(m.kernelMeasurement)), Some(Sha256Digest(m.setupDataDigest)), Some(m.kernelCmdline),
      Some(Sha256Digest(m.ramDiskDigest)), Some(Sha256Digest(m.memoryMapDigest)), Some(Sha256Digest(m.acpiDigest)))
  }

  function CbLayers(p: Primitives, encoded: seq<Bytes>): (r: seq<EventData>)
    ensures |r| == |encoded|
    ensures forall i: nat :: i < |r| ==> r[i] == EventData(Some(Sha256Digest(p.sha256(encoded[i]))))
  {
    seq(|encoded|, i requires 0 <= i < |encoded| => EventData(Some(Sha256Digest(p.sha256(encoded[i])))))
  }

  /** The loop of the CB branch. */
  method ExtractCbLayers(p: Primitives, encoded: seq<Bytes>) returns (layers: seq<EventData>)
    ensures layers == CbLayers(p, encoded)
  {
    layers := [];
    for i := 0 to |encoded|
      invariant layers == CbLayers(p, encoded)[..i]
    {
      layers := layers + [EventData(Some(Sha256Digest(p.sha256(encoded[i]))))];
    }
  }

  function ExtractRootValues(d: Decoders, root: RootLayerEvidence): (r: Outcome<RootLayerData>)
    ensures !r.Panic?
  {
    match root.platform
    case Unspecified => Err
    case IntelTdx => Err
    case AmdSevSnp =>
      var report :- OkOr(d.amdReport(root.report));
      Ok(RootLayerData(Some(SevSnp(report))))
    case NoTee =>
      var data :- OkOr(d.fakeReportData(root.report));
      Ok(RootLayerData(Some(Fake(data))))
  }

  // ---------- Claims ----------

  /** A map every entry of which is a byte string under the SHA2-256 label. */
  predicate IsDigestMap(v: Value) {
    v.Map? && forall i: nat :: i < |v.entries| ==>
      v.entries[i].0 == Integer(SHA2_256_ID) && HoldsBytes(v.entries[i].1)
  }

  /** `value_to_raw_digest`: the last SHA2-256 entry wins, and nothing else is tolerated. */
  function ValueToRawDigest(p: Primitives, v: Value): (r: Outcome<RawDigest>) {
    if !IsDigestMap(v) then Err
    else if v.entries == [] then Ok(EMPTY)
    else Ok(Sha256Digest(RawBytes(p, v.entries[|v.entries| - 1].1)))
  }

  method ConvertToRawDigest(p: Primitives, v: Value) returns (r: Outcome<RawDigest>)
    ensures r == ValueToRawDigest(p, v)
  {
    if !v.Map? {
      return Err;
    }
    var result := EMPTY;
    for i := 0 to |v.entries|
      invariant forall j: nat :: j < i ==> v.entries[j].0 == Integer(SHA2_256_ID) && HoldsBytes(v.entries[j].1)
      invariant result == if i == 0 then EMPTY else Sha256Digest(RawBytes(p, v.entries[i - 1].1))
    {
      var (key, digest) := v.entries[i];
      if HoldsBytes(digest) {
        if key == Integer(SHA2_256_ID) {
          result := result.(sha2_256 := RawBytes(p, digest));
        } else {
          return Err;
        }
      } else {
        return Err;
      }
    }
    r := Ok(result);
  }

  datatype EventIdType = EventDigest | TransparentEventDigest

  function LabelOf(t: EventIdType): (r: int) {
    if t.EventDigest? then EVENT_ID else TRANSPARENT_EVENT_ID
  }

  function ExtractEventData(p: Primitives, claims: ClaimsSet, t: EventIdType): (r: Outcome<EventData>)
    ensures r.Ok? ==> r.value.event.Some?
  {
    var value :- OkOr(FindClaim(claims.rest, LabelOf(t)));
    var digest :- ValueToRawDigest(p, value);
    Ok(EventData(Some(digest)))
  }

  /** The digest under an integer key of a layer's map. */
  function EntryDigest(p: Primitives, entries: seq<(Value, Value)>, id: int): (r: Outcome<RawDigest>) {
    var value :- OkOr(FindEntry(entries, id));
    ValueToRawDigest(p, value)
  }

  /** A raw command line that is present but not text makes `expect` panic. */
  function CommandLine(entries: seq<(Value, Value)>): (r: Outcome<Option<string>>) {
    match FindEntry(entries, KERNEL_COMMANDLINE_ID)
    case None => Ok(None)
    case Some(Text(text)) => Ok(Some(text))
    case Some(_) => Panic
  }

  function ExtractKernelValues(p: Primitives, claims: ClaimsSet): (r: Outcome<KernelLayerData>) {
    var entries :- OkOr(FindMapClaim(claims.rest, KERNEL_LAYER_ID));
    var image :- EntryDigest(p, entries, KERNEL_MEASUREMENT_ID);
    var setupData :- EntryDigest(p, entries, SETUP_DATA_MEASUREMENT_ID);
    var cmdLine :- CommandLine(entries);
    var initRamFs :- EntryDigest(p, entries, INITRD_MEASUREMENT_ID);
    var memoryMap :- EntryDigest(p, entries, MEMORY_MAP_MEASUREMENT_ID);
    var acpi :- EntryDigest(p, entries, ACPI_MEASUREMENT_ID);
    Ok(KernelLayerData(Some(image), Some(setupData), cmdLine, Some(initRamFs), Some(memoryMap), Some(acpi)))
  }

  function ExtractSystemLayer(p: Primitives, claims: ClaimsSet): (r: Outcome<SystemLayerData>) {
    var entries :- OkOr(FindMapClaim(claims.rest, SYSTEM_IMAGE_LAYER_ID));
    var image :- EntryDigest(p, entries, LAYER_2_CODE_MEASUREMENT_ID);
    Ok(SystemLayerData(Some(image)))
  }

  function ExtractContainerLayer(p: Primitives, claims: ClaimsSet): (r: Outcome<ContainerLayerData>)
    ensures !r.Panic?
  {
    var entries :- OkOr(FindMapClaim(claims.rest, CONTAINER_IMAGE_LAYER_ID));
    var bundle :- EntryDigest(p, entries, LAYER_3_CODE_MEASUREMENT_ID);
    var config :- EntryDigest(p, entries, FINAL_LAYER_CONFIG_MEASUREMENT_ID);
    Ok(ContainerLayerData(Some(bundle), Some(config), [], [], []))
  }

  function ExtractApplicationLayer(p: Primitives, claims: ClaimsSet): (r: Outcome<ApplicationLayerData>)
    ensures !r.Panic?
  {
    var entries :- OkOr(FindMapClaim(claims.rest, ENCLAVE_APPLICATION_LAYER_ID));
    var binary :- EntryDigest(p, entries, LAYER_2_CODE_MEASUREMENT_ID);
    var config :- EntryDigest(p, entries, FINAL_LAYER_CONFIG_MEASUREMENT_ID);
    Ok(ApplicationLayerData(Some(binary), Some(config)))
  }

  function LayerClaims(layer: LayerEvidence): (r: Outcome<ClaimsSet>) {
    ClaimsFromCertificate(layer.ecaCertificate)
  }

  function ExtractLayerEvents(p: Primitives, layers: seq<LayerEvidence>): (r: Outcome<seq<EventData>>)
    ensures r.Ok? ==> |r.value| == |layers|
    decreases |layers|
  {
    if layers == [] then Ok([])
    else
      var claims :- LayerClaims(layers[0]);
      var first :- ExtractEventData(p, claims, EventDigest);
      var rest :- ExtractLayerEvents(p, layers[1..]);
      Ok([first] + rest)
  }

  // ---------- The two routes ----------

  function ExtractFromEvents(p: Primitives, d: Decoders, root: RootLayerData, encoded: seq<Bytes>)
    : (r: Outcome<EvidenceValues>)
  {
    var events :- DecodeEvents(d, encoded);
    var evidenceType :- Classify(events);
    match evidenceType
    case TypeOakContainers =>
      var kernel :- DecodePayload(events[0], d.stage0);
      var system :- DecodePayload(events[1], d.system);
      var container :- DecodePayload(events[2], d.container);
      Ok(OakContainers(Some(root), Some(Stage0ToKernelLayer(kernel)), Some(system), Some(container)))
    case TypeLegacyOakContainers =>
      var kernel :- DecodePayload(events[0], d.stage0);
      var system :- DecodePayload(events[1], d.stage1);
      var container :- DecodePayload(events[2], d.orchestrator);
      Ok(OakContainers(Some(root), Some(Stage0ToKernelLayer(kernel)), Some(SystemLayerData(system.systemImage)),
                       Some(ContainerLayerData(container.containerImage, container.config, [], [], []))))
    case TypeOakRestrictedKernel =>
      var kernel :- DecodePayload(events[0], d.stage0);
      var application :- DecodePayload(events[1], d.application);
      Ok(OakRestrictedKernel(Some(root), Some(Stage0ToKernelLayer(kernel)), Some(application)))
    case TypeCb => Ok(Cb(Some(root), CbLayers(p, encoded)))
  }

  function ExtractFromClaims(p: Primitives, root: RootLayerData, e: Evidence): (r: Outcome<EvidenceValues>) {
    var keys :- OkOr(e.applicationKeys);
    var final :- ClaimsFromCertificate(keys.encryption);
    var container := ExtractContainerLayer(p, final);
    var application := ExtractApplicationLayer(p, final);
    if container.Ok? then
      if |e.layers| != 2 then Err
      else
        var kernelClaims :- LayerClaims(e.layers[0]);
        var kernel :- ExtractKernelValues(p, kernelClaims);
        var systemClaims :- LayerClaims(e.layers[1]);
        var system :- ExtractSystemLayer(p, systemClaims);
        Ok(OakContainers(Some(root), Some(kernel), Some(system), Some(container.value)))
    else if application.Ok? then
      if |e.layers| != 1 then Err
      else
        var kernelClaims :- LayerClaims(e.layers[0]);
        var kernel :- ExtractKernelValues(p, kernelClaims);
        Ok(OakRestrictedKernel(Some(root), Some(kernel), Some(application.value)))
    else
      var layers :- ExtractLayerEvents(p, e.layers);
      Ok(Cb(Some(root), layers))
  }

  function ExtractEvidenceValues(p: Primitives, d: Decoders, e: Evidence): (r: Outcome<EvidenceValues>) {
    var rootLayer :- OkOr(e.rootLayer);
    var root :- ExtractRootValues(d, rootLayer);
    if Events(e.eventLog) != [] then ExtractFromEvents(p, d, root, Events(e.eventLog))
    else ExtractFromClaims(p, root, e)
  }

  // ---------- Application keys ----------

  datatype ApplicationKeyValues = ApplicationKeyValues(encryptionPublicKey: Bytes, signingPublicKey: Bytes)

  /** Keys certified as COSE keys. */
  function CoseApplicationKeys(p: Primitives, keys: ApplicationKeys): (r: Outcome<ApplicationKeyValues>) {
    var encryptionClaims :- ClaimsFromCertificate(keys.encryption);
    var encryptionCoseKey :- GetPublicKeyFromClaimsSet(encryptionClaims);
    var encryptionKey :- CoseKeyToHpkePublicKey(encryptionCoseKey);
    var signingClaims :- ClaimsFromCertificate(keys.signing);
    var signingCoseKey :- GetPublicKeyFromClaimsSet(signingClaims);
    var signingKey :- CoseKeyToVerifyingKey(signingCoseKey);
    Ok(ApplicationKeyValues(encryptionKey, p.sec1Bytes(signingKey)))
  }

  function BytesClaim(p: Primitives, claims: ClaimsSet, id: int): (r: Outcome<Bytes>) {
    var value :- OkOr(FindClaim(claims.rest, id));
    if HoldsBytes(value) then Ok(RawBytes(p, value)) else Err
  }

  /** Keys carried as plain claims. */
  function ClaimedApplicationKeys(p: Primitives, keys: ApplicationKeys): (r: Outcome<ApplicationKeyValues>) {
    var encryptionClaims :- ClaimsFromCertificate(keys.encryption);
    var encryptionKey :- BytesClaim(p, encryptionClaims, APPLICATION_KEY_ID);
    var signingClaims :- ClaimsFromCertificate(keys.signing);
    var signingKey :- BytesClaim(p, signingClaims, APPLICATION_KEY_ID);
    Ok(ApplicationKeyValues(encryptionKey, signingKey))
  }

  function ExtractApplicationKeyValues(p: Primitives, keys: ApplicationKeys): (r: Outcome<ApplicationKeyValues>) {
    var values := CoseApplicationKeys(p, keys);
    if values.Ok? then values else ClaimedApplicationKeys(p, keys)
  }

  function ExtractEvidence(p: Primitives, d: Decoders, e: Evidence): (r: Outcome<ExtractedEvidence>) {
    var values :- ExtractEvidenceValues(p, d, e);
    var keys :- OkOr(e.applicationKeys);
    var keyValues :- ExtractApplicationKeyValues(p, keys);
    Ok(ExtractedEvidence(Some(values), keyValues.encryptionPublicKey, keyValues.signingPublicKey))
  }
}
