/** Whole runs of the DICE attester: what any mix of extensions produces, why
    the certificate chain is unbroken, and why serializing the attester between
    boot stages changes nothing. */
module DiceRuns {
  import opened Prelude
  import opened Certificates
  import opened EvidenceTypes
  import opened LengthDelimited
  import opened Dice

  /** One extension together with the key the generator hands out for it. */
  datatype Step = Step(extension: Extension, key: SigningKey)

  function Run(p: Primitives, s: AttesterState, steps: seq<Step>): (r: Outcome<AttesterState>)
    decreases |steps|
  {
    if steps == [] then Ok(s)
    else
      var next :- Extend(p, s, steps[0].extension, steps[0].key);
      Run(p, next, steps[1..])
  }

  /** The public key certified by the last layer, or by the root when there is none. */
  function CertifiedKey(e: Evidence): (r: Outcome<VerifyingKey>) {
    if e.layers != [] then
      var claims :- ClaimsFromCertificate(e.layers[|e.layers| - 1].ecaCertificate);
      var key :- GetPublicKeyFromClaimsSet(claims);
      CoseKeyToVerifyingKey(key)
    else if e.rootLayer.Some? && e.rootLayer.value.ecaPublicKey.EncodedKey? then
      CoseKeyToVerifyingKey(e.rootLayer.value.ecaPublicKey.key)
    else Err
  }

  /** The private key held is the one the evidence certifies. */
  ghost predicate Linked(p: Primitives, s: AttesterState) {
    && CertifiedKey(s.evidence) == Ok(Public(s.signingKey))
    && IssuerId(p, s.evidence) == Ok(p.keyId(Public(s.signingKey)))
  }

  /** The attester stage0 starts from: a root layer bound to its key, an empty log. */
  ghost predicate RootOnly(s: AttesterState) {
    && s.evidence.layers == []
    && s.evidence.rootLayer.Some?
    && s.evidence.rootLayer.value.ecaPublicKey == EncodedKey(Ec2(Public(s.signingKey)))
    && s.evidence.eventLog == Some(EventLog([]))
    && s.evidence.transparentEventLog == None
    && s.evidence.applicationKeys == None
  }

  /** The private key in use before step `i`. */
  function KeyAt(first: SigningKey, steps: seq<Step>, i: nat): (r: SigningKey)
    requires i <= |steps|
  {
    if i == 0 then first else steps[i - 1].key
  }

  /** The generator never repeats a key. */
  ghost predicate DistinctKeys(first: SigningKey, steps: seq<Step>) {
    forall i: nat, j: nat :: i < j <= |steps| ==> KeyAt(first, steps, i) != KeyAt(first, steps, j)
  }

  /** The layer a step adds when `signer` is the current key. */
  function LayerOf(p: Primitives, signer: SigningKey, step: Step): (r: LayerEvidence) {
    NewLayer(p, signer, p.keyId(Public(signer)), step.extension, step.key)
  }

  /** The layers a run adds. */
  function IssuedLayers(p: Primitives, first: SigningKey, steps: seq<Step>): (r: seq<LayerEvidence>)
    ensures |r| == |steps|
    ensures forall i: nat :: i < |steps| ==> r[i] == LayerOf(p, KeyAt(first, steps, i), steps[i])
    decreases |steps|
  {
    if steps == [] then [] else [LayerOf(p, first, steps[0])] + IssuedLayers(p, steps[0].key, steps[1..])
  }

  function OriginalEvents(steps: seq<Step>): (r: seq<Bytes>)
    ensures |r| == |steps|
    ensures forall i: nat :: i < |steps| ==> r[i] == steps[i].extension.event
  {
    if steps == [] then [] else [steps[0].extension.event] + OriginalEvents(steps[1..])
  }

  function TransparentEvents(steps: seq<Step>): (r: seq<Bytes>) {
    if steps == [] then []
    else
      var x := steps[0].extension;
      (if x.Transparent? then [x.transparentEvent] else []) + TransparentEvents(steps[1..])
  }

  /** A log after some pushes; without a push an absent log stays absent. */
  function Appended(log: Option<EventLog>, events: seq<Bytes>): (r: Option<EventLog>) {
    if events == [] then log else Some(EventLog(Events(log) + events))
  }

  function RunResult(p: Primitives, s: AttesterState, steps: seq<Step>): (r: AttesterState) {
    AttesterState(
      s.evidence.(
        layers := s.evidence.layers + IssuedLayers(p, s.signingKey, steps),
        eventLog := Appended(s.evidence.eventLog, OriginalEvents(steps)),
        transparentEventLog := Appended(s.evidence.transparentEventLog, TransparentEvents(steps))),
      KeyAt(s.signingKey, steps, |steps|))
  }

  /** An extension by an attester whose issuer id is that of its key. */
  function Extended(p: Primitives, s: AttesterState, step: Step): (r: AttesterState) {
    var x := step.extension;
    AttesterState(
      s.evidence.(
        layers := s.evidence.layers + [LayerOf(p, s.signingKey, step)],
        eventLog := Appended(s.evidence.eventLog, [x.event]),
        transparentEventLog :=
          Appended(s.evidence.transparentEventLog, if x.Transparent? then [x.transparentEvent] else [])),
      step.key)
  }

  lemma ExtendKeepsLinked(p: Primitives, s: AttesterState, step: Step)
    requires Linked(p, s)
    ensures Extend(p, s, step.extension, step.key) == Ok(Extended(p, s, step))
    ensures Linked(p, Extended(p, s, step))
  {
    EventClaimsBuild(p, step.extension);
    GeneratedCertificateCertifies(s.signingKey, p.keyId(Public(s.signingKey)), Ec2(Public(step.key)),
                                  p.keyId(Public(step.key)), EventClaims(p, step.extension));
  }

  lemma AppendedTwice(log: Option<EventLog>, a: seq<Bytes>, b: seq<Bytes>)
    ensures Appended(Appended(log, a), b) == Appended(log, a + b)
  {
    if a == [] {
      assert a + b == b;
    } else if b == [] {
      assert a + b == a;
    } else {
      assert Events(log) + a + b == Events(log) + (a + b);
    }
  }

  /** One extension in the closed form. */
  lemma RunResultStep(p: Primitives, s: AttesterState, steps: seq<Step>)
    requires steps != []
    ensures RunResult(p, Extended(p, s, steps[0]), steps[1..]) == RunResult(p, s, steps)
  {
    var x, rest := steps[0].extension, steps[1..];
    var layer, issued := LayerOf(p, s.signingKey, steps[0]), IssuedLayers(p, steps[0].key, rest);
    assert (s.evidence.layers + [layer]) + issued == s.evidence.layers + ([layer] + issued);
    AppendedTwice(s.evidence.eventLog, [x.event], OriginalEvents(rest));
    AppendedTwice(s.evidence.transparentEventLog, if x.Transparent? then [x.transparentEvent] else [],
                  TransparentEvents(rest));
  }

  /** A run from a linked attester never fails, and its result is known in closed form. */
  lemma {:induction false} RunClosedForm(p: Primitives, s: AttesterState, steps: seq<Step>)
    requires Linked(p, s)
    ensures Run(p, s, steps) == Ok(RunResult(p, s, steps))
    ensures Linked(p, RunResult(p, s, steps))
    decreases |steps|
  {
    if steps == [] {
      assert RunResult(p, s, steps).evidence.layers == s.evidence.layers;
    } else {
      ExtendKeepsLinked(p, s, steps[0]);
      RunClosedForm(p, Extended(p, s, steps[0]), steps[1..]);
      RunResultStep(p, s, steps);
    }
  }

  /** `layer` is signed by `signer` and by no other key, names it as issuer, and certifies `subject`. */
  ghost predicate Links(p: Primitives, layer: LayerEvidence, signer: SigningKey, subject: SigningKey) {
    && ClaimsFromCertificate(layer.ecaCertificate).Ok?
    && (forall k :: VerifySignature(k, layer.ecaCertificate.cert) <==> k == Public(signer))
    && (var claims := ClaimsFromCertificate(layer.ecaCertificate).value;
        && claims.issuer == Some(p.keyId(Public(signer)))
        && claims.subject == Some(p.keyId(Public(subject)))
        && GetPublicKeyFromClaimsSet(claims) == Ok(Ec2(Public(subject))))
  }

  lemma LayerOfLinks(p: Primitives, signer: SigningKey, step: Step)
    ensures Links(p, LayerOf(p, signer, step), signer, step.key)
  {
    GeneratedCertificateCertifies(signer, p.keyId(Public(signer)), Ec2(Public(step.key)), p.keyId(Public(step.key)),
                                  EventClaims(p, step.extension));
  }

  lemma ResultLinks(p: Primitives, s: AttesterState, steps: seq<Step>, i: nat)
    requires i < |steps|
    ensures Links(p, RunResult(p, s, steps).evidence.layers[|s.evidence.layers| + i],
                  KeyAt(s.signingKey, steps, i), steps[i].key)
  {
    assert RunResult(p, s, steps).evidence.layers[|s.evidence.layers| + i]
        == IssuedLayers(p, s.signingKey, steps)[i];
    LayerOfLinks(p, KeyAt(s.signingKey, steps, i), steps[i]);
  }

  /** The private keys that can be read out of a handover message. Evidence has no place for one: its
      certificates and signatures hold public keys only. */
  function PrivateKeysIn(d: DiceData): (r: set<SigningKey>) {
    match d.ecaPrivateKey
    case Some(KeyMaterial(key)) => {key}
    case _ => {}
  }

  lemma OneKeyIsSerialized(t: AttesterState)
    ensures PrivateKeysIn(ToDiceData(t)) == {t.signingKey}
  {
  }

  lemma LastKeyIsNew(first: SigningKey, steps: seq<Step>)
    ensures DistinctKeys(first, steps) ==>
              forall i: nat :: i < |steps| ==> KeyAt(first, steps, i) != KeyAt(first, steps, |steps|)
  {
  }

  /** Chain safety: in every reachable attester each added layer is signed by the key the
      layer before it certifies, names that key as its issuer, and certifies the next key;
      the one private key in the state, and in the message it is serialized as, matches the last
      certificate, and is none of the earlier ones when the generator never repeats a key. */
  lemma ChainSafety(p: Primitives, s: AttesterState, steps: seq<Step>)
    requires Linked(p, s)
    ensures Run(p, s, steps).Ok?
    ensures var t, n := Run(p, s, steps).value, |s.evidence.layers|;
      && Linked(p, t)
      && |t.evidence.layers| == n + |steps|
      && PrivateKeysIn(ToDiceData(t)) == {t.signingKey} == {KeyAt(s.signingKey, steps, |steps|)}
      && (forall i: nat :: i < |steps| ==>
            Links(p, t.evidence.layers[n + i], KeyAt(s.signingKey, steps, i), steps[i].key))
      && (DistinctKeys(s.signingKey, steps) ==>
            forall i: nat :: i < |steps| ==> KeyAt(s.signingKey, steps, i) !in PrivateKeysIn(ToDiceData(t)))
  {
    hide Links, Linked, Run, LayerOf, DistinctKeys, PrivateKeysIn;
    RunClosedForm(p, s, steps);
    OneKeyIsSerialized(RunResult(p, s, steps));
    LastKeyIsNew(s.signingKey, steps);
    forall i: nat | i < |steps|
      ensures Links(p, RunResult(p, s, steps).evidence.layers[|s.evidence.layers| + i],
                    KeyAt(s.signingKey, steps, i), steps[i].key)
    {
      ResultLinks(p, s, steps, i);
    }
  }

  /** Digest maps a chain carries under one label, skipping layers without it. */
  function ClaimsUnder(layers: seq<LayerEvidence>, id: int): (r: seq<Value>) {
    if layers == [] then []
    else
      var here := match ClaimsFromCertificate(layers[0].ecaCertificate)
        case Ok(claims) => (match FindClaim(claims.rest, id) case Some(v) => [v] case None => [])
        case _ => [];
      here + ClaimsUnder(layers[1..], id)
  }

  function DigestMaps(p: Primitives, events: seq<Bytes>): (r: seq<Value>)
    decreases |events|
  {
    if events == [] then [] else [DigestMap(p.sha256(events[0]))] + DigestMaps(p, events[1..])
  }

  lemma FindClaimInPair(a: (Label, Value), b: (Label, Value), id: int)
    ensures FindClaim([a], id) == if a.0 == PrivateUse(id) then Some(a.1) else None
    ensures FindClaim([a, b], id) == if a.0 == PrivateUse(id) then Some(a.1) else FindClaim([b], id)
  {
    assert [a, b][1..] == [b];
  }

  /** The event claims found in a layer are those of its own extension. */
  lemma LayerClaims(p: Primitives, signer: SigningKey, step: Step)
    ensures var layer, x := LayerOf(p, signer, step), step.extension;
      && ClaimsFromCertificate(layer.ecaCertificate).Ok?
      && (var rest := ClaimsFromCertificate(layer.ecaCertificate).value.rest;
          && rest == KeyClaims(Ec2(Public(step.key))) + EventClaims(p, x)
          && FindClaim(rest, EVENT_ID) == Some(DigestMap(p.sha256(x.event)))
          && FindClaim(rest, TRANSPARENT_EVENT_ID)
             == (if x.Transparent? then Some(DigestMap(p.sha256(x.transparentEvent))) else None)
          && FindClaim(rest, APPLICATION_KEY_ID) == None)
  {
    var own, claims := KeyClaims(Ec2(Public(step.key))), EventClaims(p, step.extension);
    forall id | id in {EVENT_ID, TRANSPARENT_EVENT_ID, APPLICATION_KEY_ID}
      ensures FindClaim(own + claims, id) == FindClaim(claims, id)
    {
      FindClaimSkips(own, claims, id);
    }
    var a, b := claims[0], claims[|claims| - 1];
    FindClaimInPair(a, b, EVENT_ID);
    FindClaimInPair(a, b, TRANSPARENT_EVENT_ID);
    FindClaimInPair(b, b, TRANSPARENT_EVENT_ID);
    FindClaimInPair(a, b, APPLICATION_KEY_ID);
    FindClaimInPair(b, b, APPLICATION_KEY_ID);
  }

  lemma {:induction false} IssuedLayersCarryEvents(p: Primitives, first: SigningKey, steps: seq<Step>)
    ensures ClaimsUnder(IssuedLayers(p, first, steps), EVENT_ID) == DigestMaps(p, OriginalEvents(steps))
    ensures ClaimsUnder(IssuedLayers(p, first, steps), TRANSPARENT_EVENT_ID) == DigestMaps(p, TransparentEvents(steps))
    decreases |steps|
  {
    if steps != [] {
      LayerClaims(p, first, steps[0]);
      IssuedLayersCarryEvents(p, steps[0].key, steps[1..]);
      assert IssuedLayers(p, first, steps)[1..] == IssuedLayers(p, steps[0].key, steps[1..]);
      assert OriginalEvents(steps)[1..] == OriginalEvents(steps[1..]);
      if steps[0].extension.Transparent? {
        assert TransparentEvents(steps)[1..] == TransparentEvents(steps[1..]);
      } else {
        assert TransparentEvents(steps) == TransparentEvents(steps[1..]);
      }
    }
  }

  /** Interleaved logs: for any mix of the two extensions the evidence only grows, one
      event per layer, and read from the certificates alone the new layers carry, in
      order, the digests of the new entries of both logs. */
  lemma InterleavedLogs(p: Primitives, s: AttesterState, steps: seq<Step>)
    requires Linked(p, s)
    ensures Run(p, s, steps).Ok?
    ensures var before, after := s.evidence, Run(p, s, steps).value.evidence;
      && before.layers <= after.layers
      && Events(before.eventLog) <= Events(after.eventLog)
      && Events(before.transparentEventLog) <= Events(after.transparentEventLog)
      && |Events(after.eventLog)| - |after.layers| == |Events(before.eventLog)| - |before.layers|
      && after == before.(layers := after.layers, eventLog := after.eventLog,
                          transparentEventLog := after.transparentEventLog)
      && (var newLayers := after.layers[|before.layers|..];
          var newEvents := Events(after.eventLog)[|Events(before.eventLog)|..];
          var newTransparent := Events(after.transparentEventLog)[|Events(before.transparentEventLog)|..];
          && newEvents == OriginalEvents(steps)
          && newTransparent == TransparentEvents(steps)
          && ClaimsUnder(newLayers, EVENT_ID) == DigestMaps(p, newEvents)
          && ClaimsUnder(newLayers, TRANSPARENT_EVENT_ID) == DigestMaps(p, newTransparent))
  {
    RunClosedForm(p, s, steps);
    IssuedLayersCarryEvents(p, s.signingKey, steps);
    var before, after := s.evidence, RunResult(p, s, steps).evidence;
    assert after.layers[|before.layers|..] == IssuedLayers(p, s.signingKey, steps);
    assert Events(after.eventLog)[|Events(before.eventLog)|..] == OriginalEvents(steps);
    assert Events(after.transparentEventLog)[|Events(before.transparentEventLog)|..] == TransparentEvents(steps);
  }

  // ---------- Handing the attester from one boot stage to the next ----------

  /** One boot stage: its steps, and whatever bytes follow the attester in the
      buffer passed to the next stage. */
  datatype Stage = Stage(steps: seq<Step>, trailing: Bytes)

  /** Every stage runs, serializes its attester, and the next one rebuilds it from the buffer. */
  function RunStages(p: Primitives, codec: Codec<DiceData>, s: AttesterState, stages: seq<Stage>)
    : (r: Outcome<AttesterState>)
    decreases |stages|
  {
    if stages == [] then Ok(s)
    else
      var t :- Run(p, s, stages[0].steps);
      var buffer :- Serialize(codec, t);
      var rebuilt :- Deserialize(codec, buffer + stages[0].trailing);
      RunStages(p, codec, rebuilt, stages[1..])
  }

  function AllSteps(stages: seq<Stage>): (r: seq<Step>) {
    if stages == [] then [] else stages[0].steps + AllSteps(stages[1..])
  }

  /** The attester that is never handed over is, at the end of every stage, small enough to be. */
  ghost predicate HandoversFit(p: Primitives, codec: Codec<DiceData>, s: AttesterState, stages: seq<Stage>) {
    forall i: nat :: 0 < i <= |stages| ==> HandoverFits(p, codec, s, stages[..i])
  }

  ghost predicate HandoverFits(p: Primitives, codec: Codec<DiceData>, s: AttesterState, stages: seq<Stage>) {
    var t := Run(p, s, AllSteps(stages));
    t.Ok? ==> |codec.encode(ToDiceData(t.value))| + PREFIX_SIZE <= ISIZE_MAX
  }

  lemma {:induction false} RunAppends(p: Primitives, s: AttesterState, a: seq<Step>, b: seq<Step>)
    ensures Run(p, s, a + b) == match Run(p, s, a) case Ok(t) => Run(p, t, b) case failure => failure
    decreases |a|
  {
    if a == [] {
      assert a + b == b;
    } else {
      assert (a + b)[1..] == a[1..] + b;
      match Extend(p, s, a[0].extension, a[0].key)
      case Ok(next) => RunAppends(p, next, a[1..], b);
      case _ =>
    }
  }

  lemma SerializeRoundTrips(codec: Codec<DiceData>, s: AttesterState, trailing: Bytes)
    requires RoundTrips(codec)
    requires Serialize(codec, s).Ok?
    ensures Deserialize(codec, Serialize(codec, s).value + trailing) == Ok(s)
  {
    DecodeEncoded(codec, ToDiceData(s), trailing);
  }

  /** Nothing but the current key can be decoded from the buffer a run is serialized into, whatever bytes
      follow it: the keys the run replaced are not there. */
  lemma ErasedKeysAreNotSerialized(p: Primitives, codec: Codec<DiceData>, s: AttesterState, steps: seq<Step>,
                                   t: AttesterState, buffer: Bytes, trailing: Bytes)
    requires RoundTrips(codec) && Linked(p, s) && DistinctKeys(s.signingKey, steps)
    requires Run(p, s, steps) == Ok(t) && Serialize(codec, t) == Ok(buffer)
    ensures Decode(codec, buffer + trailing).Ok?
    ensures PrivateKeysIn(Decode(codec, buffer + trailing).value) == {KeyAt(s.signingKey, steps, |steps|)}
    ensures forall i: nat :: i < |steps| ==>
              KeyAt(s.signingKey, steps, i) !in PrivateKeysIn(Decode(codec, buffer + trailing).value)
  {
    hide Decode, Links, Linked, Run;
    DecodeEncoded(codec, ToDiceData(t), trailing);
    ChainSafety(p, s, steps);
  }

  /** The first handover, and those after it seen from the attester it hands over. */
  lemma HandoversFitSplits(p: Primitives, codec: Codec<DiceData>, s: AttesterState, stages: seq<Stage>,
                           t: AttesterState)
    requires stages != [] && Run(p, s, stages[0].steps) == Ok(t)
    ensures HandoversFit(p, codec, s, stages)
       <==> Serialize(codec, t).Ok? && HandoversFit(p, codec, t, stages[1..])
  {
    var rest := stages[1..];
    forall i: nat | 0 < i <= |stages|
      ensures HandoverFits(p, codec, s, stages[..i]) == HandoverFits(p, codec, t, rest[..i - 1])
    {
      assert stages[..i][1..] == rest[..i - 1];
      RunAppends(p, s, stages[0].steps, AllSteps(rest[..i - 1]));
    }
    assert HandoverFits(p, codec, t, rest[..0]) == Serialize(codec, t).Ok?;
    forall i: nat | 0 < i <= |rest|
      ensures HandoverFits(p, codec, t, rest[..i]) == HandoverFits(p, codec, s, stages[..i + 1])
    {
    }
    assert HandoverFits(p, codec, s, stages[..1]) == Serialize(codec, t).Ok?;
  }

  /** Boot handoff refinement: cutting a run at any points, with any bytes after the
      attester in each buffer, ends in the same evidence and key as the uncut run,
      exactly when every handed-over attester fits in memory; otherwise it panics. */
  lemma {:induction false} HandoffRefinesUncutRun(p: Primitives, codec: Codec<DiceData>, s: AttesterState,
                                                  stages: seq<Stage>)
    requires RoundTrips(codec)
    requires Linked(p, s)
    ensures RunStages(p, codec, s, stages)
         == if HandoversFit(p, codec, s, stages) then Run(p, s, AllSteps(stages)) else Panic
    decreases |stages|
  {
    if stages != [] {
      var rest := stages[1..];
      RunClosedForm(p, s, stages[0].steps);
      var t := RunResult(p, s, stages[0].steps);
      HandoversFitSplits(p, codec, s, stages, t);
      RunAppends(p, s, stages[0].steps, AllSteps(rest));
      if Serialize(codec, t).Ok? {
        SerializeRoundTrips(codec, t, stages[0].trailing);
        HandoffRefinesUncutRun(p, codec, t, rest);
      }
    }
  }
}
