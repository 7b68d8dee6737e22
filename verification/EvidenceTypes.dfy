/** The attestation messages that attesters build and verifiers read. */
module EvidenceTypes {
  import opened Prelude
  import opened Certificates

  datatype TeePlatform = Unspecified | AmdSevSnp | IntelTdx | NoTee

  datatype RootLayerEvidence = RootLayerEvidence(platform: TeePlatform, report: Bytes, ecaPublicKey: CoseKeyBytes)

  datatype LayerEvidence = LayerEvidence(ecaCertificate: CertificateBytes)

  datatype EventLog = EventLog(encodedEvents: seq<Bytes>)

  datatype ApplicationKeys = ApplicationKeys(
    encryption: CertificateBytes,
    signing: CertificateBytes,
    groupEncryption: CertificateBytes,
    groupSigning: CertificateBytes)

  datatype Evidence = Evidence(
    rootLayer: Option<RootLayerEvidence>,
    layers: seq<LayerEvidence>,
    applicationKeys: Option<ApplicationKeys>,
    eventLog: Option<EventLog>,
    transparentEventLog: Option<EventLog>,
    signedUserDataCertificate: CertificateBytes)

  /** A byte string viewed as a P-256 private key. */
  datatype PrivateKeyBytes = KeyMaterial(key: SigningKey) | NotAPrivateKey(raw: Bytes)

  datatype DiceData = DiceData(evidence: Option<Evidence>, ecaPrivateKey: Option<PrivateKeyBytes>)

  /** The events of a log; an absent log has none. */
  function Events(log: Option<EventLog>): (r: seq<Bytes>) {
    match log
    case Some(l) => l.encodedEvents
    case None => []
  }

  /** `get_or_insert_with(default).encoded_events.push(event)`. */
  function Push(log: Option<EventLog>, event: Bytes): (r: Option<EventLog>) {
    Some(EventLog(Events(log) + [event]))
  }
}
