/** Comparison of extracted measurements with expected values. Error messages
    are dropped, so every comparer is the predicate of its success. */
module Compare {
  import opened Prelude
  import opened Digests
  import opened Extract
  import Utf8

  datatype ExpectedDigests = NoDigests | SkippedDigests | DigestList(digests: seq<RawDigest>)

  datatype TextExpectedValue = NoText | SkippedText | Regex(pattern: string) | StringLiterals(values: seq<string>)

  datatype KernelDigests = KernelDigests(image: Option<ExpectedDigests>, setupData: Option<ExpectedDigests>)

  datatype KernelExpected = KernelExpected(
    kernel: Option<KernelDigests>, kernelCmdLineText: Option<TextExpectedValue>, initRamFs: Option<ExpectedDigests>,
    memoryMap: Option<ExpectedDigests>, acpi: Option<ExpectedDigests>)

  datatype SystemExpected = SystemExpected(systemImage: Option<ExpectedDigests>)

  datatype ContainerExpected = ContainerExpected(bundle: Option<ExpectedDigests>, config: Option<ExpectedDigests>)

  datatype ApplicationExpected =
    ApplicationExpected(binary: Option<ExpectedDigests>, configuration: Option<ExpectedDigests>)

  datatype EventExpected = EventExpected(event: Option<ExpectedDigests>)

  /** `platform` stands for the reference values that only the platform checks read. */
  datatype AmdSevExpected =
    AmdSevExpected(stage0Expected: Option<ExpectedDigests>, checkVcekCertExpiry: bool, platform: Bytes)

  datatype RootExpected = RootExpected(amdSev: Option<AmdSevExpected>, intelTdx: Option<Bytes>, insecure: Option<()>)

  datatype ExpectedValues =
    | ExpectRestrictedKernel(rootLayer: Option<RootExpected>, kernelLayer: Option<KernelExpected>,
                             applicationLayer: Option<ApplicationExpected>)
    | ExpectContainers(rootLayer: Option<RootExpected>, kernelLayer: Option<KernelExpected>,
                       systemLayer: Option<SystemExpected>, containerLayer: Option<ContainerExpected>)
    | ExpectCb(rootLayer: Option<RootExpected>, layers: seq<EventExpected>)

  /** Checks that are fixed predicates here: platform report values and regular expressions. */
  datatype Checks = Checks(
    amdReport: (AmdReport, Bytes) -> bool,
    tdxQuote: (Bytes, Bytes) -> bool,
    regex: (string, string) -> bool)

  predicate MatchesDigest(measurement: RawDigest, expected: ExpectedDigests) {
    match expected
    case NoDigests => false
    case SkippedDigests => true
    case DigestList(digests) => exists i: nat :: i < |digests| && Matches(measurement, digests[i])
  }

  predicate MatchesText(c: Checks, actual: string, expected: TextExpectedValue) {
    match expected
    case NoText => false
    case SkippedText => true
    case Regex(pattern) => c.regex(actual, pattern)
    case StringLiterals(values) => actual in values
  }

  /** Both sides must be present. */
  predicate MatchesOptional(measurement: Option<RawDigest>, expected: Option<ExpectedDigests>) {
    measurement.Some? && expected.Some? && MatchesDigest(measurement.value, expected.value)
  }

  /** A command line is only compared when shorter than 256 bytes, but skipping needs none. */
  predicate MatchesCommandLine(c: Checks, actual: Option<string>, expected: Option<TextExpectedValue>) {
    || expected == Some(SkippedText)
    || (actual.Some? && expected.Some? && |Utf8.Encode(actual.value)| < 256
        && MatchesText(c, actual.value, expected.value))
  }

  predicate MatchesKernel(c: Checks, v: KernelLayerData, x: KernelExpected) {
    && x.kernel.Some?
    && MatchesOptional(v.kernelImage, x.kernel.value.image)
    && MatchesOptional(v.kernelSetupData, x.kernel.value.setupData)
    && MatchesCommandLine(c, v.kernelRawCmdLine, x.kernelCmdLineText)
    && MatchesOptional(v.initRamFs, x.initRamFs)
    && MatchesOptional(v.memoryMap, x.memoryMap)
    && MatchesOptional(v.acpi, x.acpi)
  }

  predicate MatchesRoot(c: Checks, v: RootLayerData, x: RootExpected) {
    if v.report.Some? && v.report.value.SevSnp? && x.amdSev.Some? then
      && x.amdSev.value.stage0Expected.Some?
      && MatchesDigest(Sha384Digest(v.report.value.amd.initialMeasurement), x.amdSev.value.stage0Expected.value)
      && c.amdReport(v.report.value.amd, x.amdSev.value.platform)
    else if v.report.Some? && v.report.value.Tdx? && x.intelTdx.Some? then
      c.tdxQuote(v.report.value.quote, x.intelTdx.value)
    else x.insecure.Some?
  }

  predicate MatchesEvent(v: EventData, x: EventExpected) {
    MatchesOptional(v.event, x.event)
  }

  predicate MatchesSystem(v: SystemLayerData, x: SystemExpected) {
    MatchesOptional(v.systemImage, x.systemImage)
  }

  predicate MatchesContainer(v: ContainerLayerData, x: ContainerExpected) {
    MatchesOptional(v.bundle, x.bundle) && MatchesOptional(v.config, x.config)
  }

  predicate MatchesApplication(v: ApplicationLayerData, x: ApplicationExpected) {
    MatchesOptional(v.binary, x.binary) && MatchesOptional(v.config, x.configuration)
  }

  predicate MatchesCb(c: Checks, root: Option<RootLayerData>, layers: seq<EventData>,
                      rootX: Option<RootExpected>, layersX: seq<EventExpected>)
  {
    && (if root.Some? && rootX.Some? then MatchesRoot(c, root.value, rootX.value) else root.None? && rootX.None?)
    && |layers| == |layersX|
    && forall i: nat :: i < |layers| ==> MatchesEvent(layers[i], layersX[i])
  }

  /** `compare_expected_values(...).is_ok()`. */
  predicate Accepts(c: Checks, x: ExtractedEvidence, expected: Option<ExpectedValues>) {
    match (x.evidenceValues, expected)
    case (Some(OakRestrictedKernel(root, kernel, application)), Some(ExpectRestrictedKernel(rx, kx, ax))) =>
      && root.Some? && rx.Some? && MatchesRoot(c, root.value, rx.value)
      && kernel.Some? && kx.Some? && MatchesKernel(c, kernel.value, kx.value)
      && application.Some? && ax.Some? && MatchesApplication(application.value, ax.value)
    case (Some(OakContainers(root, kernel, system, container)), Some(ExpectContainers(rx, kx, sx, cx))) =>
      && root.Some? && rx.Some? && MatchesRoot(c, root.value, rx.value)
      && kernel.Some? && kx.Some? && MatchesKernel(c, kernel.value, kx.value)
      && system.Some? && sx.Some? && MatchesSystem(system.value, sx.value)
      && container.Some? && cx.Some? && MatchesContainer(container.value, cx.value)
    case (Some(Cb(root, layers)), Some(ExpectCb(rx, lx))) => MatchesCb(c, root, layers, rx, lx)
    case _ => false
  }

  /** Evidence is only accepted by expected values of its own kind, with a root layer on both sides; CB alone can be
      compared without any. */
  lemma KindsMustAgree(c: Checks, x: ExtractedEvidence, expected: Option<ExpectedValues>)
    ensures Accepts(c, x, expected) ==>
      && x.evidenceValues.Some? && expected.Some?
      && (x.evidenceValues.value.OakRestrictedKernel? <==> expected.value.ExpectRestrictedKernel?)
      && (x.evidenceValues.value.OakContainers? <==> expected.value.ExpectContainers?)
      && (x.evidenceValues.value.rootLayer.Some? <==> expected.value.rootLayer.Some?)
      && (x.evidenceValues.value.rootLayer.None? ==> x.evidenceValues.value.Cb?)
    ensures forall layers: seq<EventData>, lx: seq<EventExpected> ::
      x.evidenceValues == Some(Cb(None, layers)) && expected == Some(ExpectCb(None, lx)) ==>
        (Accepts(c, x, expected)
         <==> |layers| == |lx| && forall i: nat :: i < |layers| ==> MatchesOptional(layers[i].event, lx[i].event))
  {
    hide MatchesKernel, MatchesRoot, MatchesOptional;
  }

  // ---------- Widening ----------

  /** `b` accepts whatever `a` lists: `b` is skipped, unchanged, or a list with at
      least the same members. A leaf without a value accepts nothing, so it may become anything. */
  ghost predicate DigestsWiden(a: ExpectedDigests, b: ExpectedDigests) {
    || b.SkippedDigests? || a.NoDigests? || a == b
    || (a.DigestList? && b.DigestList? && forall d :: d in a.digests ==> d in b.digests)
  }

  ghost predicate TextWidens(a: TextExpectedValue, b: TextExpectedValue) {
    || b.SkippedText? || a.NoText? || a == b
    || (a.StringLiterals? && b.StringLiterals? && forall t :: t in a.values ==> t in b.values)
  }

  /** A missing leaf may be filled in; a present one may only widen. */
  ghost predicate LeafWidens(a: Option<ExpectedDigests>, b: Option<ExpectedDigests>) {
    a.Some? ==> b.Some? && DigestsWiden(a.value, b.value)
  }

  ghost predicate KernelWidens(a: KernelExpected, b: KernelExpected) {
    && (a.kernel.Some? ==> b.kernel.Some? && LeafWidens(a.kernel.value.image, b.kernel.value.image)
                           && LeafWidens(a.kernel.value.setupData, b.kernel.value.setupData))
    && (a.kernelCmdLineText.Some? ==>
          b.kernelCmdLineText.Some? && TextWidens(a.kernelCmdLineText.value, b.kernelCmdLineText.value))
    && LeafWidens(a.initRamFs, b.initRamFs) && LeafWidens(a.memoryMap, b.memoryMap) && LeafWidens(a.acpi, b.acpi)
  }

  /** Which platform values are present decides which check runs, so that part is fixed. */
  ghost predicate RootWidens(a: RootExpected, b: RootExpected) {
    && a.intelTdx == b.intelTdx && a.insecure == b.insecure && a.amdSev.Some? == b.amdSev.Some?
    && (a.amdSev.Some? ==> a.amdSev.value.platform == b.amdSev.value.platform
                           && LeafWidens(a.amdSev.value.stage0Expected, b.amdSev.value.stage0Expected))
  }

  ghost predicate OptionalRootWidens(a: Option<RootExpected>, b: Option<RootExpected>) {
    a.Some? == b.Some? && (a.Some? ==> RootWidens(a.value, b.value))
  }

  /** `b` is `a` with some digest or literal lists enlarged, leaves skipped or filled in, anywhere in the tree. */
  ghost predicate Widens(a: ExpectedValues, b: ExpectedValues) {
    match (a, b)
    case (ExpectRestrictedKernel(ra, ka, aa), ExpectRestrictedKernel(rb, kb, ab)) =>
      && OptionalRootWidens(ra, rb)
      && (ka.Some? ==> kb.Some? && KernelWidens(ka.value, kb.value))
      && (aa.Some? ==> ab.Some? && LeafWidens(aa.value.binary, ab.value.binary)
                       && LeafWidens(aa.value.configuration, ab.value.configuration))
    case (ExpectContainers(ra, ka, sa, ca), ExpectContainers(rb, kb, sb, cb)) =>
      && OptionalRootWidens(ra, rb)
      && (ka.Some? ==> kb.Some? && KernelWidens(ka.value, kb.value))
      && (sa.Some? ==> sb.Some? && LeafWidens(sa.value.systemImage, sb.value.systemImage))
      && (ca.Some? ==> cb.Some? && LeafWidens(ca.value.bundle, cb.value.bundle)
                       && LeafWidens(ca.value.config, cb.value.config))
    case (ExpectCb(ra, la), ExpectCb(rb, lb)) =>
      && OptionalRootWidens(ra, rb) && |la| == |lb|
      && forall i: nat :: i < |la| ==> LeafWidens(la[i].event, lb[i].event)
    case _ => false
  }

  lemma LeafIsMonotone(m: Option<RawDigest>, a: Option<ExpectedDigests>, b: Option<ExpectedDigests>)
    requires LeafWidens(a, b)
    ensures MatchesOptional(m, a) ==> MatchesOptional(m, b)
  {
    hide Matches;
    if MatchesOptional(m, a) && a.value.DigestList? && b.value.DigestList? {
      var i: nat :| i < |a.value.digests| && Matches(m.value, a.value.digests[i]);
      assert a.value.digests[i] in b.value.digests;
    }
  }

  lemma KernelIsMonotone(c: Checks, v: KernelLayerData, a: KernelExpected, b: KernelExpected)
    requires KernelWidens(a, b)
    ensures MatchesKernel(c, v, a) ==> MatchesKernel(c, v, b)
  {
    hide MatchesOptional, LeafWidens;
    if a.kernel.Some? {
      LeafIsMonotone(v.kernelImage, a.kernel.value.image, b.kernel.value.image);
      LeafIsMonotone(v.kernelSetupData, a.kernel.value.setupData, b.kernel.value.setupData);
    }
    LeafIsMonotone(v.initRamFs, a.initRamFs, b.initRamFs);
    LeafIsMonotone(v.memoryMap, a.memoryMap, b.memoryMap);
    LeafIsMonotone(v.acpi, a.acpi, b.acpi);
  }

  lemma RootIsMonotone(c: Checks, v: RootLayerData, a: RootExpected, b: RootExpected)
    requires RootWidens(a, b)
    ensures MatchesRoot(c, v, a) ==> MatchesRoot(c, v, b)
  {
    if a.amdSev.Some? && v.report.Some? && v.report.value.SevSnp? {
      LeafIsMonotone(Some(Sha384Digest(v.report.value.amd.initialMeasurement)),
                     a.amdSev.value.stage0Expected, b.amdSev.value.stage0Expected);
    }
  }

  lemma CbIsMonotone(c: Checks, root: Option<RootLayerData>, layers: seq<EventData>, a: ExpectedValues, b: ExpectedValues)
    requires a.ExpectCb? && b.ExpectCb? && Widens(a, b)
    ensures MatchesCb(c, root, layers, a.rootLayer, a.layers) ==> MatchesCb(c, root, layers, b.rootLayer, b.layers)
  {
    hide MatchesOptional, LeafWidens, MatchesRoot, RootWidens;
    if root.Some? && a.rootLayer.Some? {
      RootIsMonotone(c, root.value, a.rootLayer.value, b.rootLayer.value);
    }
    if |layers| == |a.layers| {
      forall i: nat | i < |layers| ensures MatchesEvent(layers[i], a.layers[i]) ==> MatchesEvent(layers[i], b.layers[i]) {
        LeafIsMonotone(layers[i].event, a.layers[i].event, b.layers[i].event);
      }
    }
  }

  /** Comparison is monotone: widening the expected values anywhere never turns acceptance into rejection. */
  lemma WideningKeepsAcceptance(c: Checks, x: ExtractedEvidence, a: ExpectedValues, b: ExpectedValues)
    requires Widens(a, b)
    requires Accepts(c, x, Some(a))
    ensures Accepts(c, x, Some(b))
  {
    hide MatchesOptional, LeafWidens, MatchesRoot, RootWidens, MatchesKernel, KernelWidens, MatchesCb;
    match (x.evidenceValues, a, b)
    case (Some(OakRestrictedKernel(root, kernel, application)),
          ExpectRestrictedKernel(ra, ka, aa), ExpectRestrictedKernel(rb, kb, ab)) =>
      RootIsMonotone(c, root.value, ra.value, rb.value);
      KernelIsMonotone(c, kernel.value, ka.value, kb.value);
      LeafIsMonotone(application.value.binary, aa.value.binary, ab.value.binary);
      LeafIsMonotone(application.value.config, aa.value.configuration, ab.value.configuration);
    case (Some(OakContainers(root, kernel, system, container)),
          ExpectContainers(ra, ka, sa, ca), ExpectContainers(rb, kb, sb, cb)) =>
      RootIsMonotone(c, root.value, ra.value, rb.value);
      KernelIsMonotone(c, kernel.value, ka.value, kb.value);
      LeafIsMonotone(system.value.systemImage, sa.value.systemImage, sb.value.systemImage);
      LeafIsMonotone(container.value.bundle, ca.value.bundle, cb.value.bundle);
      LeafIsMonotone(container.value.config, ca.value.config, cb.value.config);
    case (Some(Cb(root, layers)), ExpectCb(_, _), ExpectCb(_, _)) =>
      CbIsMonotone(c, root, layers, a, b);
    case _ =>
  }

  /** Only the members of lists matter: values that widen each other, such as reorderings
      or lists with repetitions, accept the same evidence. */
  lemma OrderIsIrrelevant(c: Checks, x: ExtractedEvidence, a: ExpectedValues, b: ExpectedValues)
    requires Widens(a, b) && Widens(b, a)
    ensures Accepts(c, x, Some(a)) <==> Accepts(c, x, Some(b))
  {
    hide Accepts, Widens;
    if Accepts(c, x, Some(a)) {
      WideningKeepsAcceptance(c, x, a, b);
    }
    if Accepts(c, x, Some(b)) {
      WideningKeepsAcceptance(c, x, b, a);
    }
  }
}
