/** Attester and verifier together: what an honest attester produces is accepted,
    and nothing that is accepted under its root can rewrite its history. */
module ChainTheorems {
  import opened Prelude
  import opened Certificates
  import opened EvidenceTypes
  import opened Dice
  import opened DiceRuns
  import opened Digests
  import Extract
  import opened Verifier

  // ---------- Completeness ----------

  lemma VerifyLayerOf(p: Primitives, signer: SigningKey, step: Step)
    ensures VerifyLayer(Public(signer), LayerOf(p, signer, step)) == Ok(Public(step.key))
  {
    LayerOfLinks(p, signer, step);
  }

  lemma {:induction false} VerifyIssuedLayers(p: Primitives, first: SigningKey, steps: seq<Step>)
    ensures VerifyLayers(Public(first), IssuedLayers(p, first, steps)) == Ok(Public(KeyAt(first, steps, |steps|)))
    decreases |steps|
  {
    if steps != [] {
      VerifyLayerOf(p, first, steps[0]);
      assert IssuedLayers(p, first, steps)[1..] == IssuedLayers(p, steps[0].key, steps[1..]);
      VerifyIssuedLayers(p, steps[0].key, steps[1..]);
    }
  }

  lemma {:induction false} VerifyLayersAppends(key: VerifyingKey, a: seq<LayerEvidence>, b: seq<LayerEvidence>)
    ensures VerifyLayers(key, a + b) == match VerifyLayers(key, a) case Ok(k) => VerifyLayers(k, b) case failure => failure
    decreases |a|
  {
    if a == [] {
      assert a + b == b;
    } else {
      assert (a + b)[1..] == a[1..] + b;
      match VerifyLayer(key, a[0])
      case Ok(next) => VerifyLayersAppends(next, a[1..], b);
      case _ =>
    }
  }

  /** The claims of a layer commit to its own events and to nothing else. */
  lemma LayerCaptures(p: Primitives, signer: SigningKey, step: Step, event: Bytes, t: Extract.EventIdType)
    ensures CapturedInClaims(p, event, Extract.LayerClaims(LayerOf(p, signer, step)), t)
       <==> (if t.EventDigest? then p.sha256(event) == p.sha256(step.extension.event)
             else step.extension.Transparent? && p.sha256(event) == p.sha256(step.extension.transparentEvent))
  {
    DiceRuns.LayerClaims(p, signer, step);
  }

  lemma IssuedLogIsCaptured(p: Primitives, first: SigningKey, steps: seq<Step>)
    ensures LogIsCaptured(p, OriginalEvents(steps), IssuedLayers(p, first, steps), Extract.EventDigest)
  {
    forall i: nat | i < |steps|
      ensures CapturedInClaims(p, OriginalEvents(steps)[i], Extract.LayerClaims(IssuedLayers(p, first, steps)[i]),
                               Extract.EventDigest)
    {
      LayerCaptures(p, KeyAt(first, steps, i), steps[i], steps[i].extension.event, Extract.EventDigest);
    }
  }

  lemma CapturedLogsAppend(p: Primitives, a: seq<Bytes>, la: seq<LayerEvidence>, b: seq<Bytes>, lb: seq<LayerEvidence>,
                           t: Extract.EventIdType)
    requires LogIsCaptured(p, a, la, t) && LogIsCaptured(p, b, lb, t)
    ensures LogIsCaptured(p, a + b, la + lb, t)
  {
    hide CapturedInClaims;
    forall i: nat | i < |la + lb|
      ensures CapturedInClaims(p, (a + b)[i], Extract.LayerClaims((la + lb)[i]), t)
    {
      assert i >= |la| ==> (a + b)[i] == b[i - |la|] && (la + lb)[i] == lb[i - |la|];
    }
  }

  lemma RootOnlyIsLinked(p: Primitives, s: AttesterState)
    requires RootOnly(s)
    ensures Linked(p, s) && RootKey(s.evidence) == Ok(Public(s.signingKey))
  {
  }

  lemma SameRootLayerSameKey(e: Evidence, f: Evidence)
    requires e.rootLayer == f.rootLayer
    ensures RootKey(e) == RootKey(f)
  {
  }

  /** Verified evidence stays verified when layers that continue its chain and capture
      the new events are appended. */
  lemma VerifiedEvidenceExtends(p: Primitives, e: Evidence, key: VerifyingKey, layers: seq<LayerEvidence>,
                                events: seq<Bytes>, next: VerifyingKey, after: Evidence)
    requires VerifyDiceChain(p, e, OriginalEventLog) == Ok(key)
    requires |e.layers| == |Events(e.eventLog)|
    requires VerifyLayers(key, layers) == Ok(next)
    requires LogIsCaptured(p, events, layers, Extract.EventDigest)
    requires after.rootLayer == e.rootLayer && after.layers == e.layers + layers
    requires after.eventLog.Some? && Events(after.eventLog) == Events(e.eventLog) + events
    ensures VerifyDiceChain(p, after, OriginalEventLog) == Ok(next)
  {
    hide LogIsCaptured, VerifyLayers;
    VerifyLayersAppends(RootKey(e).value, e.layers, layers);
    CapturedLogsAppend(p, Events(e.eventLog), e.layers, events, layers, Extract.EventDigest);
    assert |after.layers| == |Events(after.eventLog)| by {
      assert |layers| == |events| by { LogLengths(p, events, layers, Extract.EventDigest); }
    }
  }

  lemma LogLengths(p: Primitives, events: seq<Bytes>, layers: seq<LayerEvidence>, t: Extract.EventIdType)
    requires LogIsCaptured(p, events, layers, t)
    ensures |layers| == |events|
  {
  }

  /** An attester whose evidence verifies keeps verifying however it is extended, and the
      verifier ends with the public half of the key the attester holds. */
  lemma RunStaysVerified(p: Primitives, s: AttesterState, steps: seq<Step>)
    requires Linked(p, s)
    requires VerifyDiceChain(p, s.evidence, OriginalEventLog) == Ok(Public(s.signingKey))
    requires |s.evidence.layers| == |Events(s.evidence.eventLog)|
    ensures Run(p, s, steps).Ok?
    ensures var t := Run(p, s, steps).value;
            VerifyDiceChain(p, t.evidence, OriginalEventLog) == Ok(Public(t.signingKey))
  {
    hide VerifyDiceChain, Linked, LogIsCaptured;
    RunClosedForm(p, s, steps);
    VerifyIssuedLayers(p, s.signingKey, steps);
    IssuedLogIsCaptured(p, s.signingKey, steps);
    var t := RunResult(p, s, steps);
    LogIsPresent(p, s.evidence);
    VerifiedEvidenceExtends(p, s.evidence, Public(s.signingKey), IssuedLayers(p, s.signingKey, steps),
                            OriginalEvents(steps), Public(t.signingKey), t.evidence);
  }

  lemma LogIsPresent(p: Primitives, e: Evidence)
    requires VerifyDiceChain(p, e, OriginalEventLog).Ok?
    ensures e.eventLog.Some?
  {
  }

  /** The evidence of every run from a root-only attester verifies. */
  lemma HonestEvidenceVerifies(p: Primitives, s: AttesterState, steps: seq<Step>)
    requires RootOnly(s)
    ensures Run(p, s, steps).Ok?
    ensures var t := Run(p, s, steps).value;
            VerifyDiceChain(p, t.evidence, OriginalEventLog) == Ok(Public(t.signingKey))
  {
    RunStaysVerified(p, s, steps);
  }

  ghost predicate AllTransparent(steps: seq<Step>) {
    forall i: nat :: i < |steps| ==> steps[i].extension.Transparent?
  }

  lemma {:induction false} TransparentEventsCount(steps: seq<Step>)
    ensures |TransparentEvents(steps)| <= |steps|
    ensures |TransparentEvents(steps)| == |steps| <==> AllTransparent(steps)
    ensures AllTransparent(steps) ==>
            forall i: nat :: i < |steps| ==> TransparentEvents(steps)[i] == steps[i].extension.transparentEvent
  {
    if steps != [] {
      TransparentEventsCount(steps[1..]);
      assert AllTransparent(steps) <==> steps[0].extension.Transparent? && AllTransparent(steps[1..]);
    }
  }

  /** The outcome of verification once the chain itself verifies, outside the Restricted Kernel shape. */
  lemma VerificationOfSoundChain(p: Primitives, e: Evidence, t: EventLogType, root: VerifyingKey, key: VerifyingKey)
    requires RootKey(e) == Ok(root) && VerifyLayers(root, e.layers) == Ok(key)
    requires |Events(LogOf(e, t))| <= |e.layers|
    ensures VerifyDiceChain(p, e, t)
         == if LogOf(e, t).Some? && LogIsCaptured(p, Events(LogOf(e, t)), e.layers, IdTypeOf(t)) then Ok(key) else Err
  {
    hide LogIsCaptured, VerifyLayers;
  }

  lemma TransparentLogIsCaptured(p: Primitives, first: SigningKey, steps: seq<Step>)
    ensures LogIsCaptured(p, TransparentEvents(steps), IssuedLayers(p, first, steps), Extract.TransparentEventDigest)
       <==> AllTransparent(steps)
  {
    TransparentEventsCount(steps);
    if AllTransparent(steps) {
      forall i: nat | i < |steps|
        ensures CapturedInClaims(p, TransparentEvents(steps)[i], Extract.LayerClaims(IssuedLayers(p, first, steps)[i]),
                                 Extract.TransparentEventDigest)
      {
        LayerCaptures(p, KeyAt(first, steps, i), steps[i], TransparentEvents(steps)[i], Extract.TransparentEventDigest);
      }
    }
  }

  /** The evidence of a run from a root-only attester, as the chain verifier sees it. */
  lemma RootRunShape(p: Primitives, s: AttesterState, steps: seq<Step>)
    requires RootOnly(s)
    ensures var e := RunResult(p, s, steps).evidence;
      && e.layers == IssuedLayers(p, s.signingKey, steps)
      && RootKey(e) == Ok(Public(s.signingKey))
      && e.transparentEventLog == (if TransparentEvents(steps) == [] then None else Some(EventLog(TransparentEvents(steps))))
  {
    hide LayerOf, RootKey;
    RootOnlyIsLinked(p, s);
    assert [] + TransparentEvents(steps) == TransparentEvents(steps);
    SameRootLayerSameKey(s.evidence, RunResult(p, s, steps).evidence);
  }

  /** Verification against the transparent log succeeds exactly for runs that made at least
      one extension and only transparent ones: a single plain `extend` breaks it for good. */
  lemma TransparentVerificationCondition(p: Primitives, s: AttesterState, steps: seq<Step>)
    requires RootOnly(s)
    ensures Run(p, s, steps).Ok?
    ensures var t := Run(p, s, steps).value;
      VerifyDiceChain(p, t.evidence, TransparentEventLog)
      == if steps != [] && AllTransparent(steps) then Ok(Public(t.signingKey)) else Err
  {
    var t := RunResult(p, s, steps);
    assert t.signingKey == KeyAt(s.signingKey, steps, |steps|);
    hide *;
    RootOnlyIsLinked(p, s);
    RunClosedForm(p, s, steps);
    RootRunShape(p, s, steps);
    VerifyIssuedLayers(p, s.signingKey, steps);
    TransparentLogIsCaptured(p, s.signingKey, steps);
    TransparentEventsCount(steps);
    TransparentLogOf(t.evidence);
    VerificationOfSoundChain(p, t.evidence, TransparentEventLog, Public(s.signingKey), Public(t.signingKey));
  }

  lemma TransparentLogOf(e: Evidence)
    ensures LogOf(e, TransparentEventLog) == e.transparentEventLog
    ensures IdTypeOf(TransparentEventLog) == Extract.TransparentEventDigest
    ensures Events(e.transparentEventLog)
         == if e.transparentEventLog.Some? then e.transparentEventLog.value.encodedEvents else []
  {
  }

  // ---------- Tamper evidence ----------

  /** `e` contains `cert` as a layer or as an application key certificate. */
  ghost predicate Presents(e: Evidence, cert: CoseSign1) {
    || LayerEvidence(EncodedCert(cert)) in e.layers
    || (e.applicationKeys.Some? && (e.applicationKeys.value.encryption == EncodedCert(cert)
                                    || e.applicationKeys.value.signing == EncodedCert(cert)))
  }

  /** Signatures under the keys a run has erased cover only what those keys signed during
      the run, namely the layers it issued. The presenter may sign with any other key,
      and may alter signature bytes that still verify. */
  ghost predicate Unforged(p: Primitives, first: SigningKey, steps: seq<Step>, e: Evidence) {
    forall cert, i: nat :: Presents(e, cert) && i < |steps| && VerifySignature(Public(KeyAt(first, steps, i)), cert) ==>
      IssuedBy(p, first, steps, KeyAt(first, steps, i), cert.payload)
  }

  /** Some layer issued by the run is signed by `key` and has this payload. */
  ghost predicate IssuedBy(p: Primitives, first: SigningKey, steps: seq<Step>, key: SigningKey, payload: Option<Payload>) {
    exists j: nat :: j < |steps| && SignedBy(Public(key), IssuedLayers(p, first, steps)[j].ecaCertificate)
                     && PayloadOf(IssuedLayers(p, first, steps)[j]) == payload
  }

  function PayloadOf(layer: LayerEvidence): (r: Option<Payload>) {
    if layer.ecaCertificate.EncodedCert? then layer.ecaCertificate.cert.payload else None
  }

  /** Every key signs once: the layer a key of the run issued is the one at its own position. */
  lemma EachKeySignsOnce(p: Primitives, first: SigningKey, steps: seq<Step>, i: nat, payload: Option<Payload>)
    requires DistinctKeys(first, steps) && i < |steps|
    requires IssuedBy(p, first, steps, KeyAt(first, steps, i), payload)
    ensures payload == PayloadOf(IssuedLayers(p, first, steps)[i])
  {
    var j: nat :| j < |steps|
      && SignedBy(Public(KeyAt(first, steps, i)), IssuedLayers(p, first, steps)[j].ecaCertificate)
      && PayloadOf(IssuedLayers(p, first, steps)[j]) == payload;
    LayerOfLinks(p, KeyAt(first, steps, j), steps[j]);
    assert KeyAt(first, steps, i) == KeyAt(first, steps, j);
    assert i == j;
  }

  /** A layer accepted under a key of the run is the layer the run issued with that key. */
  lemma AcceptedLayerIsIssued(p: Primitives, first: SigningKey, steps: seq<Step>, e: Evidence, i: nat)
    requires DistinctKeys(first, steps) && Unforged(p, first, steps, e)
    requires i < |e.layers| && i < |steps|
    requires VerifyLayer(Public(KeyAt(first, steps, i)), e.layers[i]).Ok?
    ensures PayloadOf(e.layers[i]) == PayloadOf(IssuedLayers(p, first, steps)[i])
    ensures VerifyLayer(Public(KeyAt(first, steps, i)), e.layers[i]) == Ok(Public(steps[i].key))
  {
    var layer := e.layers[i];
    assert Presents(e, layer.ecaCertificate.cert);
    EachKeySignsOnce(p, first, steps, i, PayloadOf(layer));
    LayerOfLinks(p, KeyAt(first, steps, i), steps[i]);
  }

  /** From position `i` on, an accepted chain repeats the issued layers. */
  lemma {:induction false} AcceptedLayersRepeatHistory(p: Primitives, first: SigningKey, steps: seq<Step>, e: Evidence,
                                                       i: nat)
    requires DistinctKeys(first, steps)
    requires Unforged(p, first, steps, e)
    requires i <= |e.layers| && i <= |steps|
    requires VerifyLayers(Public(KeyAt(first, steps, i)), e.layers[i..]).Ok?
    ensures forall j: nat :: i <= j < |e.layers| && j < |steps| ==>
              PayloadOf(e.layers[j]) == PayloadOf(IssuedLayers(p, first, steps)[j])
    ensures |e.layers| <= |steps| ==>
              VerifyLayers(Public(KeyAt(first, steps, i)), e.layers[i..]) == Ok(Public(KeyAt(first, steps, |e.layers|)))
    decreases |e.layers| - i
  {
    hide PayloadOf, VerifyLayer, LayerOf, Unforged, DistinctKeys;
    if i < |e.layers| && i < |steps| {
      assert e.layers[i..][0] == e.layers[i] && e.layers[i..][1..] == e.layers[i + 1..];
      AcceptedLayerIsIssued(p, first, steps, e, i);
      AcceptedLayersRepeatHistory(p, first, steps, e, i + 1);
    }
  }

  /** `e` claims the same root key as the attester started with. */
  ghost predicate SameRoot(s: AttesterState, e: Evidence) {
    RootKey(e) == Ok(Public(s.signingKey))
  }

  /** Tamper evidence: whatever accepted evidence anyone presents under the same root after
      the run erased its keys, its layers repeat the payloads of the run's layers position
      by position. If it stops early, the key it ends with is one that no longer exists. */
  lemma TamperEvidence(p: Primitives, s: AttesterState, steps: seq<Step>, e: Evidence, t: EventLogType, key: VerifyingKey,
                       log: EventLog)
    requires RootOnly(s) && DistinctKeys(s.signingKey, steps)
    requires SameRoot(s, e) && Unforged(p, s.signingKey, steps, e)
    requires VerifyDiceChain(p, e, t) == Ok(key) && LogOf(e, t) == Some(log)
    ensures forall i: nat :: i < |e.layers| && i < |steps| ==>
              PayloadOf(e.layers[i]) == PayloadOf(IssuedLayers(p, s.signingKey, steps)[i])
    ensures |e.layers| <= |steps| ==> key == Public(KeyAt(s.signingKey, steps, |e.layers|))
    ensures |e.layers| <= |log.encodedEvents|
    ensures forall i: nat :: i < |e.layers| && i < |steps| ==> RecordsSame(p, steps[i].extension, log.encodedEvents[i], t)
  {
    hide LayerOf, PayloadOf, Unforged, DistinctKeys, RootOnly, Extract.LayerClaims, CapturedInClaims;
    assert e.layers[0..] == e.layers;
    AcceptedLayersRepeatHistory(p, s.signingKey, steps, e, 0);
    ValidatedLog(p, log.encodedEvents, e.layers, e.applicationKeys, IdTypeOf(t));
    forall i: nat | i < |e.layers| && i < |steps| ensures RecordsSame(p, steps[i].extension, log.encodedEvents[i], t) {
      SamePayloadSameClaims(p, s.signingKey, steps, e.layers[i], i);
      LayerCaptures(p, KeyAt(s.signingKey, steps, i), steps[i], log.encodedEvents[i], IdTypeOf(t));
    }
  }

  /** In both shapes of a valid log every layer captures the event at its own position. */
  lemma ValidatedLog(p: Primitives, events: seq<Bytes>, layers: seq<LayerEvidence>, keys: Option<ApplicationKeys>,
                     t: Extract.EventIdType)
    requires ValidateEventsAndLayers(p, events, layers, keys, t).Ok?
    ensures |layers| <= |events|
    ensures forall i: nat :: i < |layers| ==> CapturedInClaims(p, events[i], Extract.LayerClaims(layers[i]), t)
    ensures |layers| == |events|
         || (|layers| == 1 && |events| == 2 && keys.Some?
             && CapturedInClaims(p, events[1], ClaimsFromCertificate(keys.value.encryption), t))
  {
    hide CapturedInClaims;
  }

  /** An event of the log has the digest of what the extension recorded in that log. */
  predicate RecordsSame(p: Primitives, x: Extension, event: Bytes, t: EventLogType) {
    if t.OriginalEventLog? then p.sha256(event) == p.sha256(x.event)
    else x.Transparent? && p.sha256(event) == p.sha256(x.transparentEvent)
  }

  lemma SamePayloadSameClaims(p: Primitives, first: SigningKey, steps: seq<Step>, layer: LayerEvidence, i: nat)
    requires i < |steps| && PayloadOf(layer) == PayloadOf(IssuedLayers(p, first, steps)[i])
    ensures Extract.LayerClaims(layer) == Extract.LayerClaims(LayerOf(p, KeyAt(first, steps, i), steps[i]))
  {
    DiceRuns.LayerClaims(p, KeyAt(first, steps, i), steps[i]);
  }

  /** A layer certificate cannot pass for an encryption key certificate. */
  lemma LayerIsNoEncryptionKey(p: Primitives, signer: SigningKey, step: Step, keys: ApplicationKeys)
    requires keys.encryption.EncodedCert?
    requires keys.encryption.cert.payload == PayloadOf(LayerOf(p, signer, step))
    ensures Extract.ExtractApplicationKeyValues(p, keys).IsFailure()
  {
    DiceRuns.LayerClaims(p, signer, step);
    LayerOfLinks(p, signer, step);
  }

  lemma PresentsEncryptionCertificate(e: Evidence, cert: CoseSign1)
    requires e.applicationKeys.Some? && e.applicationKeys.value.encryption == EncodedCert(cert)
    ensures Presents(e, cert)
  {
  }

  /** What acceptance by the extracting verifier entails. */
  lemma AcceptedParts(p: Primitives, d: Extract.Decoders, e: Evidence)
    requires VerifyAndExtract(p, d, e).Ok?
    ensures RootKey(e).Ok? && VerifyLayers(RootKey(e).value, e.layers).Ok?
    ensures e.applicationKeys.Some?
    ensures SignedBy(VerifyLayers(RootKey(e).value, e.layers).value, e.applicationKeys.value.encryption)
    ensures SignedBy(VerifyLayers(RootKey(e).value, e.layers).value, e.applicationKeys.value.signing)
    ensures Extract.ExtractApplicationKeyValues(p, e.applicationKeys.value).Ok?
    ensures e.eventLog.Some? ==>
      ValidateEventsAndLayers(p, Events(e.eventLog), e.layers, e.applicationKeys, Extract.EventDigest).Ok?
    ensures Extract.ExtractEvidenceValues(p, d, e).Ok?
    ensures var keys := Extract.ExtractApplicationKeyValues(p, e.applicationKeys.value).value;
      VerifyAndExtract(p, d, e).value
      == Extract.ExtractedEvidence(Some(Extract.ExtractEvidenceValues(p, d, e).value), keys.encryptionPublicKey,
                                   keys.signingPublicKey)
  {
    hide VerifyLayers, ValidateEventsAndLayers, Extract.ExtractEvidenceValues, Extract.ExtractApplicationKeyValues,
         RootKey, SignedBy;
  }

  /** History cannot be cut short: evidence accepted together with its application keys
      contains all layers of the run. */
  lemma HistoryIsComplete(p: Primitives, d: Extract.Decoders, s: AttesterState, steps: seq<Step>, e: Evidence)
    requires RootOnly(s) && DistinctKeys(s.signingKey, steps)
    requires SameRoot(s, e) && Unforged(p, s.signingKey, steps, e)
    requires VerifyAndExtract(p, d, e).Ok?
    ensures |steps| <= |e.layers|
    ensures forall i: nat :: i < |steps| ==>
              PayloadOf(e.layers[i]) == PayloadOf(IssuedLayers(p, s.signingKey, steps)[i])
  {
    hide VerifyAndExtract, LayerOf, PayloadOf, VerifyLayers, Extract.ExtractApplicationKeyValues, DistinctKeys,
         Presents;
    AcceptedParts(p, d, e);
    assert e.layers[0..] == e.layers;
    AcceptedLayersRepeatHistory(p, s.signingKey, steps, e, 0);
    var n := |e.layers|;
    if n < |steps| {
      var keys := e.applicationKeys.value;
      PresentsEncryptionCertificate(e, keys.encryption.cert);
      EachKeySignsOnce(p, s.signingKey, steps, n, keys.encryption.cert.payload);
      LayerIsNoEncryptionKey(p, KeyAt(s.signingKey, steps, n), steps[n], keys);
      assert false;
    }
  }

  /** The digests read from the claims of the first layers are those of the run's events. */
  lemma {:induction false} LayerEventsAt(p: Primitives, layers: seq<LayerEvidence>, i: nat)
    requires Extract.ExtractLayerEvents(p, layers).Ok? && i < |layers|
    ensures Extract.LayerClaims(layers[i]).Ok?
    ensures Extract.ExtractEventData(p, Extract.LayerClaims(layers[i]).value, Extract.EventDigest)
         == Ok(Extract.ExtractLayerEvents(p, layers).value[i])
    decreases |layers|
  {
    if i > 0 {
      LayerEventsAt(p, layers[1..], i - 1);
    }
  }

  lemma LayerEventData(p: Primitives, signer: SigningKey, step: Step)
    ensures Extract.LayerClaims(LayerOf(p, signer, step)).Ok?
    ensures Extract.ExtractEventData(p, Extract.LayerClaims(LayerOf(p, signer, step)).value, Extract.EventDigest)
         == Ok(Extract.EventData(Some(Sha256Digest(p.sha256(step.extension.event)))))
  {
    DiceRuns.LayerClaims(p, signer, step);
  }

  lemma CbFromEvents(p: Primitives, d: Extract.Decoders, root: Extract.RootLayerData, events: seq<Bytes>)
    requires Extract.ExtractFromEvents(p, d, root, events).Ok? && Extract.ExtractFromEvents(p, d, root, events).value.Cb?
    ensures |events| >= 3 && Extract.ExtractFromEvents(p, d, root, events).value.layers == Extract.CbLayers(p, events)
  {
    hide Extract.CbLayers, Extract.HasType, Extract.DecodePayload, Extract.Stage0ToKernelLayer;
  }

  lemma CbFromClaims(p: Primitives, root: Extract.RootLayerData, e: Evidence)
    requires Extract.ExtractFromClaims(p, root, e).Ok? && Extract.ExtractFromClaims(p, root, e).value.Cb?
    ensures Extract.ExtractLayerEvents(p, e.layers) == Ok(Extract.ExtractFromClaims(p, root, e).value.layers)
  {
    hide Extract.ExtractLayerEvents, Extract.ExtractKernelValues, Extract.ExtractSystemLayer,
         Extract.ExtractContainerLayer, Extract.ExtractApplicationLayer;
  }

  /** Where the layers of CB values come from. */
  lemma CbValuesCome(p: Primitives, d: Extract.Decoders, e: Evidence)
    requires Extract.ExtractEvidenceValues(p, d, e).Ok? && Extract.ExtractEvidenceValues(p, d, e).value.Cb?
    ensures var layers := Extract.ExtractEvidenceValues(p, d, e).value.layers;
      if Events(e.eventLog) != [] then |Events(e.eventLog)| >= 3 && layers == Extract.CbLayers(p, Events(e.eventLog))
      else Extract.ExtractLayerEvents(p, e.layers) == Ok(layers)
  {
    hide Extract.ExtractFromEvents, Extract.ExtractFromClaims, Extract.CbLayers, Extract.ExtractLayerEvents,
         Extract.ExtractRootValues;
    var root := Extract.ExtractRootValues(d, e.rootLayer.value).value;
    if Events(e.eventLog) != [] {
      CbFromEvents(p, d, root, Events(e.eventLog));
    } else {
      CbFromClaims(p, root, e);
    }
  }

  lemma CapturedEventDigest(p: Primitives, events: seq<Bytes>, layers: seq<LayerEvidence>, keys: Option<ApplicationKeys>,
                            signer: SigningKey, step: Step, i: nat)
    requires |events| >= 3 && ValidateEventsAndLayers(p, events, layers, keys, Extract.EventDigest).Ok?
    requires i < |layers| && Extract.LayerClaims(layers[i]) == Extract.LayerClaims(LayerOf(p, signer, step))
    ensures |events| == |layers| && p.sha256(events[i]) == p.sha256(step.extension.event)
  {
    hide LayerOf, Extract.LayerClaims;
    LayerCaptures(p, signer, step, events[i], Extract.EventDigest);
  }

  /** Layer `i` of accepted evidence yields the digest of the run's event `i`, by either route. */
  lemma ReportedEvent(p: Primitives, d: Extract.Decoders, first: SigningKey, steps: seq<Step>, e: Evidence,
                      root: Option<Extract.RootLayerData>, layers: seq<Extract.EventData>, i: nat)
    requires VerifyAndExtract(p, d, e).Ok?
    requires Extract.ExtractEvidenceValues(p, d, e) == Ok(Extract.Cb(root, layers))
    requires i < |steps| && i < |e.layers|
    requires PayloadOf(e.layers[i]) == PayloadOf(IssuedLayers(p, first, steps)[i])
    ensures i < |layers| && layers[i] == Extract.EventData(Some(Sha256Digest(p.sha256(steps[i].extension.event))))
  {
    hide VerifyAndExtract, Extract.ExtractEvidenceValues, VerifyLayers, RootKey, LayerOf, PayloadOf, SignedBy,
         ValidateEventsAndLayers, Extract.ExtractApplicationKeyValues, Extract.ExtractLayerEvents, Extract.LayerClaims,
         Extract.ExtractEventData;
    AcceptedParts(p, d, e);
    CbValuesCome(p, d, e);
    SamePayloadSameClaims(p, first, steps, e.layers[i], i);
    var signer := KeyAt(first, steps, i);
    if Events(e.eventLog) != [] {
      CapturedEventDigest(p, Events(e.eventLog), e.layers, e.applicationKeys, signer, steps[i], i);
    } else {
      LayerEventData(p, signer, steps[i]);
      LayerEventsAt(p, e.layers, i);
    }
  }

  /** No misreporting: by either extraction route, the first layers of accepted CB evidence
      are the digests of exactly the events the honest stages recorded. */
  lemma NoMisreporting(p: Primitives, d: Extract.Decoders, s: AttesterState, steps: seq<Step>, e: Evidence,
                       x: Extract.ExtractedEvidence, root: Option<Extract.RootLayerData>, layers: seq<Extract.EventData>)
    requires RootOnly(s) && DistinctKeys(s.signingKey, steps)
    requires SameRoot(s, e) && Unforged(p, s.signingKey, steps, e)
    requires VerifyAndExtract(p, d, e) == Ok(x)
    requires x.evidenceValues == Some(Extract.Cb(root, layers))
    ensures Extract.CbLayers(p, OriginalEvents(steps)) <= layers
  {
    hide VerifyAndExtract, LayerOf, PayloadOf, DistinctKeys, Unforged, Extract.ExtractEvidenceValues, RootOnly,
         SameRoot, VerifyLayers, RootKey, ValidateEventsAndLayers, Extract.ExtractApplicationKeyValues, SignedBy;
    HistoryIsComplete(p, d, s, steps, e);
    AcceptedParts(p, d, e);
    forall i: nat | i < |steps|
      ensures i < |layers| && layers[i] == Extract.EventData(Some(Sha256Digest(p.sha256(steps[i].extension.event))))
    {
      ReportedEvent(p, d, s.signingKey, steps, e, root, layers, i);
    }
    if steps != [] {
      ReportedEvent(p, d, s.signingKey, steps, e, root, layers, |steps| - 1);
    }
  }
}
