/** Verification of a DICE chain and of the event log it commits to. */
module Verifier {
  import opened Prelude
  import opened Certificates
  import opened EvidenceTypes
  import opened Extract

  function RootKey(e: Evidence): (r: Outcome<VerifyingKey>)
    ensures !r.Panic?
  {
    var root :- OkOr(e.rootLayer);
    match root.ecaPublicKey
    case EncodedKey(key) => CoseKeyToVerifyingKey(key)
    case NotAKey(_) => Err
  }

  /** Checks one layer against the key of the layer before it and returns the key it certifies. */
  function VerifyLayer(key: VerifyingKey, layer: LayerEvidence): (r: Outcome<VerifyingKey>)
    ensures !r.Panic?
  {
    match layer.ecaCertificate
    case NotACert(_) => Err
    case EncodedCert(cert) =>
      var _ :- Ensure(VerifySignature(key, cert));
      var claims :- ClaimsFromCertificate(layer.ecaCertificate);
      var coseKey :- GetPublicKeyFromClaimsSet(claims);
      CoseKeyToVerifyingKey(coseKey)
  }

  /** The `try_fold` over the layers. */
  function VerifyLayers(key: VerifyingKey, layers: seq<LayerEvidence>): (r: Outcome<VerifyingKey>)
    ensures !r.Panic?
    decreases |layers|
  {
    if layers == [] then Ok(key)
    else
      var next :- VerifyLayer(key, layers[0]);
      VerifyLayers(next, layers[1..])
  }

  /** The digest of `event` is the one `claims` commits to. */
  predicate CapturedInClaims(p: Primitives, event: Bytes, claims: Outcome<ClaimsSet>, t: EventIdType) {
    && claims.Ok?
    && (var data := ExtractEventData(p, claims.value, t);
        data.Ok? && data.value.event.value.sha2_256 == p.sha256(event))
  }

  /** Every layer commits to exactly one event, the one at its own position. */
  predicate LogIsCaptured(p: Primitives, events: seq<Bytes>, layers: seq<LayerEvidence>, t: EventIdType) {
    && |layers| == |events|
    && forall i: nat :: i < |layers| ==> CapturedInClaims(p, events[i], LayerClaims(layers[i]), t)
  }

  /** `validate_events_and_layers`: a Restricted Kernel chain has one layer and two events,
      and its application key certificate commits to the second. */
  function ValidateEventsAndLayers(p: Primitives, events: seq<Bytes>, layers: seq<LayerEvidence>,
                                   applicationKeys: Option<ApplicationKeys>, t: EventIdType): (r: Outcome<()>)
  {
    if |layers| == 1 && |events| == 2 then
      var keys :- OkOr(applicationKeys);
      var _ :- Ensure(CapturedInClaims(p, events[1], ClaimsFromCertificate(keys.encryption), t));
      Ensure(LogIsCaptured(p, [events[0]], layers, t))
    else Ensure(LogIsCaptured(p, events, layers, t))
  }

  datatype EventLogType = OriginalEventLog | TransparentEventLog

  function LogOf(e: Evidence, t: EventLogType): (r: Option<EventLog>) {
    if t.OriginalEventLog? then e.eventLog else e.transparentEventLog
  }

  function IdTypeOf(t: EventLogType): (r: EventIdType) {
    if t.OriginalEventLog? then EventDigest else TransparentEventDigest
  }

  /** `verify_dice_chain`: returns the key certified by the last layer, or an error; it never panics. */
  function VerifyDiceChain(p: Primitives, e: Evidence, t: EventLogType): (r: Outcome<VerifyingKey>)
    ensures !r.Panic?
  {
    var root :- RootKey(e);
    var last :- VerifyLayers(root, e.layers);
    var log :- OkOr(LogOf(e, t));
    var _ :- ValidateEventsAndLayers(p, log.encodedEvents, e.layers, e.applicationKeys, IdTypeOf(t));
    Ok(last)
  }

  predicate SignedBy(key: VerifyingKey, bytes: CertificateBytes) {
    bytes.EncodedCert? && VerifySignature(key, bytes.cert)
  }

  /** `verify_dice_chain_and_extract_evidence`. */
  function VerifyAndExtract(p: Primitives, d: Decoders, e: Evidence): (r: Outcome<ExtractedEvidence>) {
    var root :- RootKey(e);
    var last :- VerifyLayers(root, e.layers);
    var keys :- OkOr(e.applicationKeys);
    var _ :- Ensure(SignedBy(last, keys.encryption));
    var _ :- Ensure(SignedBy(last, keys.signing));
    var _ :- if e.eventLog.Some?
             then ValidateEventsAndLayers(p, e.eventLog.value.encodedEvents, e.layers, e.applicationKeys, EventDigest)
             else Ok(());
    ExtractEvidence(p, d, e)
  }
}
