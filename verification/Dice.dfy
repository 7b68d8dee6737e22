/** The DICE attester: every extension certifies a fresh key with the current
    one, records the event and replaces the key. */
module Dice {
  import opened Prelude
  import opened Certificates
  import opened EvidenceTypes
  import opened LengthDelimited

  /** One call on the attester: `extend` or `extend_transparent`. */
  datatype Extension =
    | Plain(event: Bytes)
    | Transparent(event: Bytes, transparentEvent: Bytes)

  datatype AttesterState = AttesterState(evidence: Evidence, signingKey: SigningKey)

  /** The subject of the last layer, or the key id of the root when there is none. */
  function IssuerId(p: Primitives, e: Evidence): (r: Outcome<string>)
    ensures !r.Panic?
  {
    if e.layers != [] then
      var claims :- ClaimsFromCertificate(e.layers[|e.layers| - 1].ecaCertificate);
      OkOr(claims.subject)
    else
      var root :- OkOr(e.rootLayer);
      match root.ecaPublicKey
      case NotAKey(_) => Err
      case EncodedKey(coseKey) =>
        var key :- CoseKeyToVerifyingKey(coseKey);
        Ok(p.keyId(key))
  }

  function DigestClaim(p: Primitives, id: int, event: Bytes): (r: (Label, Value)) {
    (PrivateUse(id), DigestMap(p.sha256(event)))
  }

  function EventClaims(p: Primitives, x: Extension): (r: Claims) {
    match x
    case Plain(event) => [DigestClaim(p, EVENT_ID, event)]
    case Transparent(event, transparent) =>
      [DigestClaim(p, EVENT_ID, event), DigestClaim(p, TRANSPARENT_EVENT_ID, transparent)]
  }

  function NewLayer(p: Primitives, key: SigningKey, issuerId: string, x: Extension, next: SigningKey)
    : (r: LayerEvidence)
  {
    LayerEvidence(EncodedCert(SigningCertificateOf(p, key, issuerId, Public(next), EventClaims(p, x))))
  }

  /** The claims of an event have names the builder takes, so issuing a layer does not fail. */
  lemma EventClaimsBuild(p: Primitives, x: Extension)
    ensures Buildable(EventClaims(p, x))
  {
  }

  /** What an extension leaves behind; `next` is the generated key. */
  function Extend(p: Primitives, s: AttesterState, x: Extension, next: SigningKey): (r: Outcome<AttesterState>) {
    var issuerId :- IssuerId(p, s.evidence);
    var certificate :- GenerateSigningCertificate(p, s.signingKey, issuerId, Public(next), EventClaims(p, x));
    Ok(AttesterState(
      s.evidence.(
        layers := s.evidence.layers + [LayerEvidence(EncodedCert(certificate))],
        eventLog := Push(s.evidence.eventLog, x.event),
        transparentEventLog :=
          if x.Transparent? then Push(s.evidence.transparentEventLog, x.transparentEvent)
          else s.evidence.transparentEventLog),
      next))
  }

  /** The additional claims the caller wants in the application key certificates. */
  datatype LayerData = LayerData(additionalClaims: Claims, encodedEvent: Bytes)

  function AddApplicationKeys(p: Primitives, s: AttesterState, layerData: LayerData, kemKey: Bytes, key: VerifyingKey,
                              groupKemKey: Option<Bytes>, groupKey: Option<VerifyingKey>): (r: Outcome<Evidence>)
  {
    if s.evidence.layers == [] then Err
    else
      var claims :- ClaimsFromCertificate(s.evidence.layers[|s.evidence.layers| - 1].ecaCertificate);
      var issuerId :- OkOr(claims.subject);
      var kem :- GenerateKemCertificate(p, s.signingKey, issuerId, kemKey, layerData.additionalClaims);
      var signing :- GenerateSigningCertificate(p, s.signingKey, issuerId, key, layerData.additionalClaims);
      var groupKem :- GroupCertificate(
        if groupKemKey.Some? then Some(GenerateKemCertificate(p, s.signingKey, issuerId, groupKemKey.value, [])) else None);
      var groupSigning :- GroupCertificate(
        if groupKey.Some? then Some(GenerateSigningCertificate(p, s.signingKey, issuerId, groupKey.value, [])) else None);
      var keys := ApplicationKeys(EncodedCert(kem), EncodedCert(signing), groupKem, groupSigning);
      Ok(s.evidence.(applicationKeys := Some(keys)))
  }

  /** A certificate for a group key, or empty bytes when there is no such key. */
  function GroupCertificate(certificate: Option<Outcome<CoseSign1>>): (r: Outcome<CertificateBytes>) {
    match certificate
    case None => Ok(NotACert([]))
    case Some(generated) =>
      var cert :- generated;
      Ok(EncodedCert(cert))
  }

  function ToDiceData(s: AttesterState): (r: DiceData) {
    DiceData(Some(s.evidence), Some(KeyMaterial(s.signingKey)))
  }

  /** `TryFrom<DiceData>`. */
  function FromDiceData(d: DiceData): (r: Outcome<AttesterState>)
    ensures r.Ok? <==> d.evidence.Some? && d.ecaPrivateKey.Some? && d.ecaPrivateKey.value.KeyMaterial?
    ensures r.Ok? ==> ToDiceData(r.value) == d
    ensures !r.Panic?
  {
    var evidence :- OkOr(d.evidence);
    var keyBytes :- OkOr(d.ecaPrivateKey);
    match keyBytes
    case KeyMaterial(key) => Ok(AttesterState(evidence, key))
    case NotAPrivateKey(_) => Err
  }

  function Serialize(codec: Codec<DiceData>, s: AttesterState): (r: Outcome<Bytes>) {
    Encoding(codec, ToDiceData(s))
  }

  function Deserialize(codec: Codec<DiceData>, buffer: Bytes): (r: Outcome<AttesterState>) {
    var diceData :- Decode(codec, buffer);
    FromDiceData(diceData)
  }

  /** `measure_digest`: `chunkSize(i)` is the length of the chunk a `Buf` offers at offset `i`. */
  method MeasureDigest(p: Primitives, contents: Bytes, chunkSize: nat -> nat) returns (digest: Bytes)
    requires forall i: nat :: i < |contents| ==> 0 < chunkSize(i) <= |contents| - i
    ensures digest == p.sha256(contents)
  {
    var absorbed: Bytes := [];
    var position := 0;
    while |contents| - position > 0
      invariant 0 <= position <= |contents|
      invariant absorbed == contents[..position]
    {
      var chunk := contents[position..position + chunkSize(position)];
      absorbed := absorbed + chunk;
      position := position + |chunk|;
    }
    assert absorbed == contents;
    digest := p.sha256(absorbed);
  }

  class DiceAttester {
    var evidence: Evidence
    /** `None` once the attester has been consumed; the key is then zeroed. */
    var signingKey: Option<SigningKey>

    constructor (s: AttesterState)
      ensures Live() && State() == s
    {
      evidence := s.evidence;
      signingKey := Some(s.signingKey);
    }

    ghost predicate Live()
      reads this
    {
      signingKey.Some?
    }

    ghost function State(): (s: AttesterState)
      requires Live()
      reads this
    {
      AttesterState(evidence, signingKey.value)
    }

    method ExtendWith(p: Primitives, encodedEvent: Bytes, next: SigningKey) returns (r: Outcome<()>)
      requires Live()
      modifies this
      ensures Live()
      ensures match Extend(p, old(State()), Plain(encodedEvent), next)
              case Ok(s) => r == Ok(()) && State() == s
              case failure => r.IsFailure() && State() == old(State())
    {
      var issuerId := IssuerId(p, evidence);
      if issuerId.IsFailure() {
        return issuerId.PropagateFailure();
      }
      var digest := MeasureDigest(p, encodedEvent, i => if i < |encodedEvent| then |encodedEvent| - i else 0);
      var claim := (PrivateUse(EVENT_ID), DigestMap(digest));
      var certificate := GenerateSigningCertificate(p, signingKey.value, issuerId.value, Public(next), [claim]);
      if certificate.IsFailure() {
        return certificate.PropagateFailure();
      }
      evidence := evidence.(layers := evidence.layers + [LayerEvidence(EncodedCert(certificate.value))]);
      evidence := evidence.(eventLog := Push(evidence.eventLog, encodedEvent));
      signingKey := Some(next);
      r := Ok(());
    }

    method ExtendTransparent(p: Primitives, original: Bytes, transparent: Bytes, next: SigningKey)
      returns (r: Outcome<()>)
      requires Live()
      modifies this
      ensures Live()
      ensures match Extend(p, old(State()), Transparent(original, transparent), next)
              case Ok(s) => r == Ok(()) && State() == s
              case failure => r.IsFailure() && State() == old(State())
    {
      var issuerId := IssuerId(p, evidence);
      if issuerId.IsFailure() {
        return issuerId.PropagateFailure();
      }
      var digest := MeasureDigest(p, original, i => if i < |original| then |original| - i else 0);
      var transparentDigest := MeasureDigest(p, transparent, i => if i < |transparent| then |transparent| - i else 0);
      var claims := [(PrivateUse(EVENT_ID), DigestMap(digest)),
                     (PrivateUse(TRANSPARENT_EVENT_ID), DigestMap(transparentDigest))];
      var certificate := GenerateSigningCertificate(p, signingKey.value, issuerId.value, Public(next), claims);
      if certificate.IsFailure() {
        return certificate.PropagateFailure();
      }
      evidence := evidence.(layers := evidence.layers + [LayerEvidence(EncodedCert(certificate.value))]);
      evidence := evidence.(eventLog := Push(evidence.eventLog, original));
      evidence := evidence.(transparentEventLog := Push(evidence.transparentEventLog, transparent));
      signingKey := Some(next);
      r := Ok(());
    }

    method Quote() returns (r: Evidence)
      ensures r == evidence
    {
      r := evidence;
    }

    /** Consumes the attester: afterwards only the returned buffer holds the key. */
    method SerializeAndConsume(codec: Codec<DiceData>) returns (r: Outcome<Bytes>)
      requires Live()
      modifies this
      ensures r == Serialize(codec, old(State()))
      ensures !Live() && evidence == old(evidence)
    {
      var diceData := DiceData(Some(evidence), Some(KeyMaterial(signingKey.value)));
      r := Encode(codec, diceData);
      signingKey := None;
    }
  }

  /** Rebuilds an attester from a buffer. */
  method DeserializeAttester(codec: Codec<DiceData>, buffer: Bytes)
    returns (r: Outcome<()>, attester: DiceAttester?)
    ensures attester != null ==> fresh(attester) && attester.Live()
    ensures match Deserialize(codec, buffer)
            case Ok(s) => r == Ok(()) && attester != null && attester.State() == s
            case failure => r.IsFailure() && attester == null
  {
    attester := null;
    var diceData := Decode(codec, buffer);
    if diceData.IsFailure() {
      return diceData.PropagateFailure(), null;
    }
    var state := FromDiceData(diceData.value);
    if state.IsFailure() {
      return state.PropagateFailure(), null;
    }
    attester := new DiceAttester(state.value);
    r := Ok(());
  }
}
