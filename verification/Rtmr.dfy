/** The TDX attester: events are logged and extend a hardware register, and a
    verifier replays the log to recompute that register. */
module Rtmr {
  import opened Prelude
  import opened Certificates
  import opened EvidenceTypes
  import opened LengthDelimited
  import Dice

  type Digest384 = b: Bytes | |b| == 48 witness seq(48, _ => 0)

  type Sha384 = Bytes -> Digest384

  /** The initial state of a runtime measurement register. */
  const RESET: Bytes := seq(48, _ => 0)

  /** The hash of the current state followed by the digest. */
  function Extended(sha: Sha384, register: Bytes, digest: Bytes): (r: Bytes) {
    sha(register + digest)
  }

  /** The register after extending it with the digests of these events in order. */
  function Replay(sha: Sha384, register: Bytes, events: seq<Bytes>): (r: Bytes)
    decreases |events|
  {
    if events == [] then register
    else Extended(sha, Replay(sha, register, events[..|events| - 1]), sha(events[|events| - 1]))
  }

  /** The attester together with the register of the machine it runs on. */
  datatype TdxState = TdxState(evidence: Evidence, rtmr2: Bytes)

  /** `extend`: the event is logged before the register is touched, so a failing
      extension leaves the log one entry ahead. */
  function Extend(sha: Sha384, s: TdxState, event: Bytes, hardwareOk: bool): (r: TdxState) {
    TdxState(s.evidence.(eventLog := Push(s.evidence.eventLog, event)),
             if hardwareOk then Extended(sha, s.rtmr2, sha(event)) else s.rtmr2)
  }

  function Serialize(codec: Codec<DiceData>, e: Evidence): (r: Outcome<Bytes>) {
    Encoding(codec, DiceData(Some(e), None))
  }

  function FromDiceData(d: DiceData): (r: Outcome<Evidence>) {
    OkOr(d.evidence)
  }

  function Deserialize(codec: Codec<DiceData>, buffer: Bytes): (r: Outcome<Evidence>) {
    var data :- Decode(codec, buffer);
    FromDiceData(data)
  }

  /** The register of the machine; it outlives every attester. */
  class TdxModule {
    var rtmr2: Bytes

    constructor ()
      ensures rtmr2 == RESET
    {
      rtmr2 := RESET;
    }

    method ExtendRtmr2(sha: Sha384, digest: Bytes, hardwareOk: bool) returns (r: Outcome<()>)
      modifies this
      ensures r == Ensure(hardwareOk)
      ensures rtmr2 == if hardwareOk then Extended(sha, old(rtmr2), digest) else old(rtmr2)
    {
      if !hardwareOk {
        return Err;
      }
      rtmr2 := sha(rtmr2 + digest);
      r := Ok(());
    }
  }

  class RtmrAttester {
    var evidence: Evidence

    constructor (e: Evidence)
      ensures evidence == e
    {
      evidence := e;
    }

    ghost function State(tdx: TdxModule): (s: TdxState)
      reads this, tdx
    {
      TdxState(evidence, tdx.rtmr2)
    }

    method ExtendWith(sha: Sha384, tdx: TdxModule, encodedEvent: Bytes, hardwareOk: bool) returns (r: Outcome<()>)
      modifies this, tdx
      ensures r == Ensure(hardwareOk)
      ensures State(tdx) == Extend(sha, old(State(tdx)), encodedEvent, hardwareOk)
    {
      evidence := evidence.(eventLog := Push(evidence.eventLog, encodedEvent));
      var digest := sha(encodedEvent);
      r := tdx.ExtendRtmr2(sha, digest, hardwareOk);
    }

    /** `makeReport` is the hardware quote over the current register. */
    method Quote(tdx: TdxModule, makeReport: Bytes -> Option<Bytes>) returns (r: Outcome<Evidence>)
      ensures r == QuoteOf(State(tdx), makeReport)
    {
      var report := OkOr(makeReport(tdx.rtmr2));
      if report.IsFailure() {
        return report.PropagateFailure();
      }
      var result := evidence;
      result := result.(rootLayer := Some(RootLayerEvidence(IntelTdx, report.value, NotAKey([]))));
      r := Ok(result);
    }
  }

  function QuoteOf(s: TdxState, makeReport: Bytes -> Option<Bytes>): (r: Outcome<Evidence>) {
    var report :- OkOr(makeReport(s.rtmr2));
    Ok(s.evidence.(rootLayer := Some(RootLayerEvidence(IntelTdx, report, NotAKey([])))))
  }

  /** The software register of the verifier. */
  class RtmrEmulator {
    var state: Bytes

    constructor ()
      ensures state == RESET
    {
      state := RESET;
    }

    method Extend(sha: Sha384, digest: Bytes)
      modifies this
      ensures state == Extended(sha, old(state), digest)
    {
      var current := state;
      current := current + digest;
      state := sha(current);
    }
  }

  /** The integrity check of the TDX verifier: replay the log and compare with the quoted register. */
  method CheckEventLog(sha: Sha384, log: Option<EventLog>, quoted: Bytes) returns (r: Outcome<()>)
    ensures r == if log.None? then Err else Ensure(Replay(sha, RESET, log.value.encodedEvents) == quoted)
  {
    if log.None? {
      return Err;
    }
    var events := log.value.encodedEvents;
    var emulator := new RtmrEmulator();
    for i := 0 to |events|
      invariant emulator.state == Replay(sha, RESET, events[..i])
    {
      emulator.Extend(sha, sha(events[i]));
      assert events[..i + 1][..i] == events[..i];
    }
    assert events[..|events|] == events;
    r := Ensure(emulator.state == quoted);
  }

  // ---------- Runs ----------

  /** One thing that happens during boot: an extension, which the hardware may refuse, or a
      handover of the attester to the next stage in a buffer with trailing bytes. */
  datatype Step = ExtendStep(event: Bytes, hardwareOk: bool) | Handover(trailing: Bytes)

  function Run(sha: Sha384, codec: Codec<DiceData>, s: TdxState, steps: seq<Step>): (r: Outcome<TdxState>)
    decreases |steps|
  {
    if steps == [] then Ok(s)
    else
      match steps[0]
      case ExtendStep(event, hardwareOk) => Run(sha, codec, Extend(sha, s, event, hardwareOk), steps[1..])
      case Handover(trailing) =>
        var buffer :- Serialize(codec, s.evidence);
        var evidence :- Deserialize(codec, buffer + trailing);
        Run(sha, codec, s.(evidence := evidence), steps[1..])
  }

  /** The events of a run, all of them or only those the hardware accepted. */
  function LoggedEvents(steps: seq<Step>, acceptedOnly: bool): (r: seq<Bytes>)
    decreases |steps|
  {
    if steps == [] then []
    else
      (if steps[0].ExtendStep? && (steps[0].hardwareOk || !acceptedOnly) then [steps[0].event] else [])
      + LoggedEvents(steps[1..], acceptedOnly)
  }

  lemma {:induction false} ReplayAppends(sha: Sha384, register: Bytes, a: seq<Bytes>, b: seq<Bytes>)
    ensures Replay(sha, register, a + b) == Replay(sha, Replay(sha, register, a), b)
    decreases |b|
  {
    if b == [] {
      assert a + b == a;
    } else {
      var last := |b| - 1;
      assert (a + b)[..|a + b| - 1] == a + b[..last];
      ReplayAppends(sha, register, a, b[..last]);
    }
  }

  lemma ReplayOne(sha: Sha384, register: Bytes, event: Bytes)
    ensures Replay(sha, register, [event]) == Extended(sha, register, sha(event))
  {
    assert [event][..0] == [];
  }

  lemma SerializeRoundTrips(codec: Codec<DiceData>, e: Evidence, trailing: Bytes)
    requires RoundTrips(codec)
    requires Serialize(codec, e).Ok?
    ensures Deserialize(codec, Serialize(codec, e).value + trailing) == Ok(e)
  {
    DecodeEncoded(codec, DiceData(Some(e), None), trailing);
  }

  /** What a run has done to the state it started from. */
  ghost predicate Effect(sha: Sha384, s: TdxState, steps: seq<Step>, t: TdxState) {
    && Events(t.evidence.eventLog) == Events(s.evidence.eventLog) + LoggedEvents(steps, false)
    && t.rtmr2 == Replay(sha, s.rtmr2, LoggedEvents(steps, true))
    && t.evidence == s.evidence.(eventLog := t.evidence.eventLog)
    && (s.evidence.eventLog.Some? ==> t.evidence.eventLog.Some?)
  }

  lemma EffectOfExtend(sha: Sha384, s: TdxState, event: Bytes, hardwareOk: bool, rest: seq<Step>, t: TdxState)
    requires Effect(sha, Extend(sha, s, event, hardwareOk), rest, t)
    ensures Effect(sha, s, [ExtendStep(event, hardwareOk)] + rest, t)
  {
    hide Replay, Extended;
    var steps, events := [ExtendStep(event, hardwareOk)] + rest, Events(s.evidence.eventLog);
    DropFirst(ExtendStep(event, hardwareOk), rest);
    ConcatAssociates(events, [event], LoggedEvents(rest, false));
    if hardwareOk {
      ReplayOne(sha, s.rtmr2, event);
      ReplayAppends(sha, s.rtmr2, [event], LoggedEvents(rest, true));
    } else {
      assert LoggedEvents(steps, true) == LoggedEvents(rest, true);
    }
  }

  lemma EffectOfHandover(sha: Sha384, s: TdxState, trailing: Bytes, rest: seq<Step>, t: TdxState)
    requires Effect(sha, s, rest, t)
    ensures Effect(sha, s, [Handover(trailing)] + rest, t)
  {
    var steps := [Handover(trailing)] + rest;
    DropFirst(Handover(trailing), rest);
    assert LoggedEvents(steps, true) == LoggedEvents(rest, true);
    assert LoggedEvents(steps, false) == LoggedEvents(rest, false);
  }

  /** Over every run, handovers included, the log gains all events while the register gains
      exactly those whose extension succeeded; nothing else in the evidence changes. */
  lemma {:induction false} RunLogsAllExtendsAccepted(sha: Sha384, codec: Codec<DiceData>, s: TdxState, steps: seq<Step>)
    requires RoundTrips(codec)
    requires Run(sha, codec, s, steps).Ok?
    ensures Effect(sha, s, steps, Run(sha, codec, s, steps).value)
    decreases |steps|
  {
    if steps == [] {
      assert Events(s.evidence.eventLog) + [] == Events(s.evidence.eventLog);
    } else {
      hide Effect, Extend, Serialize, Deserialize;
      var rest, t := steps[1..], Run(sha, codec, s, steps).value;
      assert steps == [steps[0]] + rest;
      match steps[0]
      case ExtendStep(event, hardwareOk) =>
        RunLogsAllExtendsAccepted(sha, codec, Extend(sha, s, event, hardwareOk), rest);
        EffectOfExtend(sha, s, event, hardwareOk, rest, t);
      case Handover(trailing) =>
        SerializeRoundTrips(codec, s.evidence, trailing);
        RunLogsAllExtendsAccepted(sha, codec, s, rest);
        EffectOfHandover(sha, s, trailing, rest, t);
    }
  }

  ghost predicate AllAccepted(steps: seq<Step>) {
    forall i: nat :: i < |steps| && steps[i].ExtendStep? ==> steps[i].hardwareOk
  }

  lemma {:induction false} AcceptedCount(steps: seq<Step>)
    ensures AllAccepted(steps) ==> LoggedEvents(steps, true) == LoggedEvents(steps, false)
    ensures |LoggedEvents(steps, true)| <= |LoggedEvents(steps, false)|
    ensures !AllAccepted(steps) ==> |LoggedEvents(steps, true)| < |LoggedEvents(steps, false)|
    decreases |steps|
  {
    if steps != [] {
      AcceptedCount(steps[1..]);
      assert AllAccepted(steps) <==> (steps[0].ExtendStep? ==> steps[0].hardwareOk) && AllAccepted(steps[1..]) by {
        if AllAccepted(steps[1..]) && (steps[0].ExtendStep? ==> steps[0].hardwareOk) {
          forall i: nat | i < |steps| && steps[i].ExtendStep? ensures steps[i].hardwareOk {
            assert i > 0 ==> steps[i] == steps[1..][i - 1];
          }
        }
        if AllAccepted(steps) {
          forall i: nat | i < |steps[1..]| && steps[1..][i].ExtendStep? ensures steps[1..][i].hardwareOk {
            assert steps[1..][i] == steps[i + 1];
          }
        }
      }
    }
  }

  // ---------- What a register binds ----------

  /** Everything hashed while replaying a log: its events, and each register with the digest put after it. */
  function Inputs(sha: Sha384, register: Bytes, events: seq<Bytes>): (r: set<Bytes>)
    decreases |events|
  {
    if events == [] then {}
    else
      var before, last := events[..|events| - 1], events[|events| - 1];
      Inputs(sha, register, before) + {last, Replay(sha, register, before) + sha(last)}
  }

  /** Among these inputs two different ones have one digest, or one hashes to the initial register. */
  predicate CollisionAmong(sha: Sha384, register: Bytes, inputs: set<Bytes>) {
    || (exists x, y :: x in inputs && y in inputs && x != y && sha(x) == sha(y))
    || (exists x :: x in inputs && sha(x) == register)
  }

  lemma CollisionAmongMore(sha: Sha384, register: Bytes, some: set<Bytes>, all: set<Bytes>)
    requires CollisionAmong(sha, register, some) && some <= all
    ensures CollisionAmong(sha, register, all)
  {
  }

  lemma {:induction false} ReplayLength(sha: Sha384, register: Bytes, events: seq<Bytes>)
    requires |register| == 48
    ensures |Replay(sha, register, events)| == 48
  {
  }

  lemma EqualHalves(a: Bytes, b: Bytes, c: Bytes, d: Bytes)
    requires |a| == |b| && a + c == b + d
    ensures a == b && c == d
  {
    SplitConcat(a, c);
    SplitConcat(b, d);
  }

  /** The last events of two logs with one replay are the same and so are the registers before them,
      or hashing them is a collision. */
  lemma LastExtension(sha: Sha384, x: Bytes, y: Bytes, a: Bytes, b: Bytes, register: Bytes, inputs: set<Bytes>)
    requires |x| == |y| && sha(x + sha(a)) == sha(y + sha(b))
    requires {a, b, x + sha(a), y + sha(b)} <= inputs
    ensures (x == y && a == b) || CollisionAmong(sha, register, inputs)
  {
    if x + sha(a) == y + sha(b) {
      EqualHalves(x, y, sha(a), sha(b));
    }
  }

  /** A register binds its log: two logs that replay to one value from one initial register are the
      same log, or replaying them shows a collision. */
  lemma {:induction false} ReplayBinds(sha: Sha384, register: Bytes, a: seq<Bytes>, b: seq<Bytes>)
    requires |register| == 48
    requires Replay(sha, register, a) == Replay(sha, register, b)
    ensures a == b || CollisionAmong(sha, register, Inputs(sha, register, a) + Inputs(sha, register, b))
    decreases |a| + |b|
  {
    hide CollisionAmong;
    var inputs := Inputs(sha, register, a) + Inputs(sha, register, b);
    if a == [] && b != [] {
      HashesToRegister(sha, register, b, inputs);
    } else if a != [] && b == [] {
      HashesToRegister(sha, register, a, inputs);
    } else if a != [] && b != [] {
      var beforeA, beforeB := a[..|a| - 1], b[..|b| - 1];
      var x, y := Replay(sha, register, beforeA), Replay(sha, register, beforeB);
      ReplayLength(sha, register, beforeA);
      ReplayLength(sha, register, beforeB);
      LastExtension(sha, x, y, a[|a| - 1], b[|b| - 1], register, inputs);
      if x == y && a[|a| - 1] == b[|b| - 1] {
        ReplayBinds(sha, register, beforeA, beforeB);
        if beforeA == beforeB {
          assert a == beforeA + [a[|a| - 1]] && b == beforeB + [b[|b| - 1]];
        } else {
          CollisionAmongMore(sha, register, Inputs(sha, register, beforeA) + Inputs(sha, register, beforeB), inputs);
        }
      }
    }
  }

  lemma HashesToRegister(sha: Sha384, register: Bytes, events: seq<Bytes>, inputs: set<Bytes>)
    requires events != [] && Replay(sha, register, events) == register
    requires Inputs(sha, register, events) <= inputs
    ensures CollisionAmong(sha, register, inputs)
  {
    var before, last := events[..|events| - 1], events[|events| - 1];
    assert Replay(sha, register, before) + sha(last) in inputs;
  }

  /** The verifier's guarantee: whatever log replays to the register that a run left behind is the log of
      exactly the events whose extension succeeded, in order, or replaying the two shows a collision. */
  lemma AcceptedLogIsTheRun(sha: Sha384, codec: Codec<DiceData>, s: TdxState, steps: seq<Step>, t: TdxState,
                            log: seq<Bytes>)
    requires RoundTrips(codec) && s.rtmr2 == RESET && Run(sha, codec, s, steps) == Ok(t)
    ensures log == LoggedEvents(steps, true) ==> Replay(sha, RESET, log) == t.rtmr2
    ensures Replay(sha, RESET, log) == t.rtmr2 ==>
              log == LoggedEvents(steps, true)
              || CollisionAmong(sha, RESET, Inputs(sha, RESET, log) + Inputs(sha, RESET, LoggedEvents(steps, true)))
  {
    hide Run, Replay, Inputs, CollisionAmong;
    RunLogsAllExtendsAccepted(sha, codec, s, steps);
    if Replay(sha, RESET, log) == t.rtmr2 {
      ReplayBinds(sha, RESET, log, LoggedEvents(steps, true));
    }
  }

  /** RTMR replay: on every run from a reset register and an empty log, the verifier's replay of
      the attester's own log reproduces RTMR2 exactly when every extension succeeded, unless the two
      replays show a collision. */
  lemma ReplayMatchesRegister(sha: Sha384, codec: Codec<DiceData>, s: TdxState, steps: seq<Step>, t: TdxState)
    requires RoundTrips(codec)
    requires s.rtmr2 == RESET && s.evidence.eventLog == Some(EventLog([]))
    requires Run(sha, codec, s, steps) == Ok(t)
    ensures t.evidence.eventLog == Some(EventLog(LoggedEvents(steps, false)))
    ensures AllAccepted(steps) ==> Replay(sha, RESET, LoggedEvents(steps, false)) == t.rtmr2
    ensures Replay(sha, RESET, LoggedEvents(steps, false)) == t.rtmr2 ==>
              AllAccepted(steps)
              || CollisionAmong(sha, RESET, Inputs(sha, RESET, LoggedEvents(steps, false))
                                            + Inputs(sha, RESET, LoggedEvents(steps, true)))
  {
    hide Run, Replay, Inputs, CollisionAmong, AllAccepted;
    RunLogsAllExtendsAccepted(sha, codec, s, steps);
    AcceptedCount(steps);
    assert Events(t.evidence.eventLog) == LoggedEvents(steps, false);
    AcceptedLogIsTheRun(sha, codec, s, steps, t, LoggedEvents(steps, false));
  }

  /** A quote carries the attester's evidence, its log included, under a root layer of this platform with a
      report over the register. Of evidence with that root layer and any log, the log replays to the quoted register if it
      is the log of the accepted events, and only if it is or the replays show a collision. `parse`
      reads the register out of a report. */
  lemma QuotedLogVerdict(sha: Sha384, codec: Codec<DiceData>, s: TdxState, steps: seq<Step>,
                         makeReport: Bytes -> Option<Bytes>, parse: Bytes -> Bytes, t: TdxState, quoted: Evidence,
                         presented: Evidence, log: seq<Bytes>)
    requires RoundTrips(codec) && s.rtmr2 == RESET && Run(sha, codec, s, steps) == Ok(t)
    requires forall register :: makeReport(register).Some? ==> parse(makeReport(register).value) == register
    requires QuoteOf(t, makeReport) == Ok(quoted)
    requires presented.rootLayer == quoted.rootLayer && presented.eventLog == Some(EventLog(log))
    ensures quoted == t.evidence.(rootLayer := quoted.rootLayer) && quoted.rootLayer.Some?
    ensures quoted.rootLayer.value.platform.IntelTdx? && parse(quoted.rootLayer.value.report) == t.rtmr2
    ensures log == LoggedEvents(steps, true) ==> Replay(sha, RESET, log) == parse(presented.rootLayer.value.report)
    ensures Replay(sha, RESET, log) == parse(presented.rootLayer.value.report) ==>
              log == LoggedEvents(steps, true)
              || CollisionAmong(sha, RESET, Inputs(sha, RESET, log) + Inputs(sha, RESET, LoggedEvents(steps, true)))
  {
    hide Run, Replay, Inputs, CollisionAmong;
    AcceptedLogIsTheRun(sha, codec, s, steps, t, log);
  }

  // ---------- Choosing the attester for a buffer ----------

  /** The attester that works on both platforms. */
  datatype UnifiedAttester = RtmrVariant(evidence: Evidence) | DiceVariant(state: Dice.AttesterState)

  function UnifiedEvidence(a: UnifiedAttester): (r: Evidence) {
    match a
    case RtmrVariant(e) => e
    case DiceVariant(s) => s.evidence
  }

  function SerializeUnified(codec: Codec<DiceData>, a: UnifiedAttester): (r: Outcome<Bytes>) {
    match a
    case RtmrVariant(e) => Serialize(codec, e)
    case DiceVariant(s) => Dice.Serialize(codec, s)
  }

  /** The platform in the root layer decides which attester the buffer holds. */
  function DeserializeUnified(codec: Codec<DiceData>, buffer: Bytes): (r: Outcome<UnifiedAttester>) {
    var data :- Decode(codec, buffer);
    var evidence :- OkOr(data.evidence);
    var root :- OkOr(evidence.rootLayer);
    match root.platform
    case AmdSevSnp => (var s :- Dice.FromDiceData(data); Ok(DiceVariant(s)))
    case NoTee => (var s :- Dice.FromDiceData(data); Ok(DiceVariant(s)))
    case IntelTdx => Ok(RtmrVariant(evidence))
    case Unspecified => Err
  }

  /** The platform in the evidence is one this kind of attester runs on. */
  ghost predicate OnItsPlatform(a: UnifiedAttester) {
    var root := UnifiedEvidence(a).rootLayer;
    root.Some? && (if a.RtmrVariant? then root.value.platform.IntelTdx?
                   else root.value.platform.AmdSevSnp? || root.value.platform.NoTee?)
  }

  /** A handover gives back the same attester exactly when the evidence names its platform, and is an error
      when it names none. */
  lemma UnifiedHandover(codec: Codec<DiceData>, a: UnifiedAttester, trailing: Bytes)
    requires RoundTrips(codec)
    requires SerializeUnified(codec, a).Ok?
    ensures DeserializeUnified(codec, SerializeUnified(codec, a).value + trailing) == Ok(a) <==> OnItsPlatform(a)
    ensures var root := UnifiedEvidence(a).rootLayer;
      root.None? || root.value.platform.Unspecified? ==>
        DeserializeUnified(codec, SerializeUnified(codec, a).value + trailing) == Err
  {
    match a
    case RtmrVariant(e) => DecodeEncoded(codec, DiceData(Some(e), None), trailing);
    case DiceVariant(s) => DecodeEncoded(codec, Dice.ToDiceData(s), trailing);
  }
}
