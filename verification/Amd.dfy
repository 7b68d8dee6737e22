/** The checks that tie an AMD SEV-SNP attestation report to its VCEK
    certificate: chip id, TCB version and the P-384 signature. */
module Amd {
  import opened Prelude
  import opened LengthDelimited

  /** Bytes of a P-384 scalar, and bytes a report reserves for one. */
  const SCALAR_SIZE: nat := 48
  const STORED_SIZE: nat := 72
  const CHIP_ID_SIZE: nat := 64

  // ---------- Endianness ----------

  /** The value a P-384 scalar is read with; reports store scalars little-endian (`FromLeBytes`). */
  function FromBeBytes(b: Bytes): (n: nat) {
    if b == [] then 0 else 256 * FromBeBytes(b[..|b| - 1]) + b[|b| - 1]
  }

  lemma {:induction false} MirroredValue(b: Bytes, m: Bytes)
    requires |b| == |m|
    requires forall i :: 0 <= i < |b| ==> m[i] == b[|b| - 1 - i]
    ensures FromBeBytes(m) == FromLeBytes(b)
    decreases |b|
  {
    if b != [] {
      MirroredValue(b[1..], m[..|m| - 1]);
    }
  }

  lemma {:induction false} SplitValue(b: Bytes, k: nat)
    requires k <= |b|
    ensures FromLeBytes(b) == FromLeBytes(b[..k]) + Pow256(k) * FromLeBytes(b[k..])
    decreases k
  {
    if k == 0 {
      assert b[0..] == b;
    } else {
      SplitValue(b[1..], k - 1);
      assert b[1..][..k - 1] == b[..k][1..] && b[1..][k - 1..] == b[k..];
      ShiftedValue(b[0], FromLeBytes(b[..k][1..]), Pow256(k - 1), FromLeBytes(b[k..]));
    }
  }

  lemma ShiftedValue(first: int, low: int, power: int, high: int)
    ensures first + 256 * (low + power * high) == (first + 256 * low) + (256 * power) * high
  {
  }

  lemma ZeroProduct(a: nat, b: nat)
    requires a > 0
    ensures a * b == 0 <==> b == 0
  {
  }

  predicate AllZero(b: Bytes) {
    forall i :: 0 <= i < |b| ==> b[i] == 0
  }

  lemma {:induction false} ZeroValue(b: Bytes)
    ensures FromLeBytes(b) == 0 <==> AllZero(b)
    decreases |b|
  {
    if b != [] {
      ZeroValue(b[1..]);
      assert AllZero(b) <==> b[0] == 0 && AllZero(b[1..]) by {
        assert forall i :: 0 < i < |b| ==> b[i] == b[1..][i - 1];
      }
    }
  }

  /** The first 48 bytes hold the whole stored value exactly when the padding is zero. */
  lemma ZeroExtension(stored: Bytes)
    requires |stored| == STORED_SIZE
    ensures FromLeBytes(stored[..SCALAR_SIZE]) == FromLeBytes(stored) <==> AllZero(stored[SCALAR_SIZE..])
  {
    hide Pow256, FromLeBytes;
    SplitValue(stored, SCALAR_SIZE);
    ZeroValue(stored[SCALAR_SIZE..]);
    ZeroProduct(Pow256(SCALAR_SIZE), FromLeBytes(stored[SCALAR_SIZE..]));
  }

  /** Copies two scalars stored little-endian into the big-endian arrays the signature library reads:
      each array denotes the integer that the first 48 stored bytes denote. */
  method MirrorScalars(storedR: Bytes, storedS: Bytes) returns (r: array<byte>, s: array<byte>)
    requires |storedR| == STORED_SIZE && |storedS| == STORED_SIZE
    ensures r.Length == s.Length == SCALAR_SIZE
    ensures FromBeBytes(r[..]) == FromLeBytes(storedR[..SCALAR_SIZE])
    ensures FromBeBytes(s[..]) == FromLeBytes(storedS[..SCALAR_SIZE])
  {
    r := new byte[SCALAR_SIZE](_ => 0);
    s := new byte[SCALAR_SIZE](_ => 0);
    for i := 0 to SCALAR_SIZE
      invariant forall k :: 0 <= k < i ==> r[k] == storedR[SCALAR_SIZE - 1 - k]
      invariant forall k :: 0 <= k < i ==> s[k] == storedS[SCALAR_SIZE - 1 - k]
    {
      var j := SCALAR_SIZE - 1 - i;
      r[i] := storedR[j];
      s[i] := storedS[j];
    }
    MirroredValue(storedR[..SCALAR_SIZE], r[..]);
    MirroredValue(storedS[..SCALAR_SIZE], s[..]);
  }

  // ---------- Certificate extensions ----------

  /** The object identifiers of AMD's extensions, and any other. */
  datatype Oid = BootLoaderOid | TeeOid | SnpOid | MicrocodeOid | FmcOid | ChipIdOid | ProductNameOid | OtherOid(id: nat)

  datatype Extension = Extension(oid: Oid, value: Bytes)

  datatype TcbVersion = TcbVersion(bootLoader: byte, tee: byte, snp: byte, microcode: byte, fmc: byte)

  /** The last byte of the last extension with this identifier, zero if there is none. */
  function Component(extensions: seq<Extension>, oid: Oid): (r: byte) {
    if extensions == [] then 0
    else
      var last := extensions[|extensions| - 1];
      if last.oid == oid then (if last.value == [] then 0 else last.value[|last.value| - 1])
      else Component(extensions[..|extensions| - 1], oid)
  }

  predicate LastWith(extensions: seq<Extension>, oid: Oid, i: nat) {
    i < |extensions| && extensions[i].oid == oid && forall j: nat :: i < j < |extensions| ==> extensions[j].oid != oid
  }

  /** That is the component: the last extension with the identifier counts, and its last byte. */
  lemma {:induction false} ComponentExactly(extensions: seq<Extension>, oid: Oid, i: nat)
    ensures LastWith(extensions, oid, i) && extensions[i].value != [] ==>
              Component(extensions, oid) == extensions[i].value[|extensions[i].value| - 1]
    ensures (forall j: nat :: j < |extensions| ==> extensions[j].oid != oid) ==> Component(extensions, oid) == 0
    decreases |extensions|
  {
    if extensions != [] && extensions[|extensions| - 1].oid != oid {
      var before := extensions[..|extensions| - 1];
      assert LastWith(extensions, oid, i) ==> i < |before| && LastWith(before, oid, i);
      ComponentExactly(before, oid, i);
    }
  }

  /** The index of the last byte is computed for every value and used for the TCB ones: an empty value panics
      at once where Rust checks for overflow, and otherwise when it is read. */
  predicate Readable(extensions: seq<Extension>, overflowChecks: bool) {
    forall i :: 0 <= i < |extensions| && extensions[i].value == [] ==> !overflowChecks && !IsTcb(extensions[i].oid)
  }

  predicate IsTcb(oid: Oid) {
    oid in {BootLoaderOid, TeeOid, SnpOid, MicrocodeOid, FmcOid}
  }

  lemma NothingRead(overflowChecks: bool)
    ensures Readable([], overflowChecks) && forall oid :: Component([], oid) == 0
  {
  }

  lemma ReadableAppends(before: seq<Extension>, x: Extension, overflowChecks: bool)
    ensures Readable(before + [x], overflowChecks)
       <==> Readable(before, overflowChecks) && (x.value == [] ==> !overflowChecks && !IsTcb(x.oid))
  {
    assert forall i :: 0 <= i < |before| ==> (before + [x])[i] == before[i];
    assert (before + [x])[|before|] == x;
  }

  lemma ReadablePrefix(extensions: seq<Extension>, i: nat, overflowChecks: bool)
    requires i <= |extensions|
    ensures Readable(extensions, overflowChecks) ==> Readable(extensions[..i], overflowChecks)
  {
  }

  lemma ComponentAppends(before: seq<Extension>, x: Extension, oid: Oid)
    ensures Component(before + [x], oid)
         == if x.oid != oid then Component(before, oid) else if x.value == [] then 0 else x.value[|x.value| - 1]
  {
    assert (before + [x])[..|before|] == before;
  }

  /** `parse_tcb_version`. */
  method ParseTcbVersion(extensions: Option<seq<Extension>>, overflowChecks: bool) returns (r: Outcome<TcbVersion>)
    ensures r == if extensions.None? then Err
                 else if !Readable(extensions.value, overflowChecks) then Panic
                 else var e := extensions.value;
                   Ok(TcbVersion(Component(e, BootLoaderOid), Component(e, TeeOid), Component(e, SnpOid),
                                 Component(e, MicrocodeOid), Component(e, FmcOid)))
  {
    if extensions.None? {
      return Err;
    }
    hide Readable, Component;
    var e := extensions.value;
    var tcb := TcbVersion(0, 0, 0, 0, 0);
    NothingRead(overflowChecks);
    for i := 0 to |e|
      invariant Readable(e[..i], overflowChecks)
      invariant tcb.bootLoader == Component(e[..i], BootLoaderOid) && tcb.tee == Component(e[..i], TeeOid)
      invariant tcb.snp == Component(e[..i], SnpOid) && tcb.microcode == Component(e[..i], MicrocodeOid)
      invariant tcb.fmc == Component(e[..i], FmcOid)
    {
      assert e[..i + 1] == e[..i] + [e[i]];
      ReadableAppends(e[..i], e[i], overflowChecks);
      ComponentAppends(e[..i], e[i], BootLoaderOid);
      ComponentAppends(e[..i], e[i], TeeOid);
      ComponentAppends(e[..i], e[i], SnpOid);
      ComponentAppends(e[..i], e[i], MicrocodeOid);
      ComponentAppends(e[..i], e[i], FmcOid);
      if e[i].value == [] {
        if overflowChecks || IsTcb(e[i].oid) {
          ReadablePrefix(e, i + 1, overflowChecks);
          return Panic;
        }
      } else {
        var last := e[i].value[|e[i].value| - 1];
        match e[i].oid {
          case BootLoaderOid => tcb := tcb.(bootLoader := last);
          case TeeOid => tcb := tcb.(tee := last);
          case SnpOid => tcb := tcb.(snp := last);
          case MicrocodeOid => tcb := tcb.(microcode := last);
          case FmcOid => tcb := tcb.(fmc := last);
          case _ =>
        }
      }
    }
    assert e[..|e|] == e;
    r := Ok(tcb);
  }

  predicate FirstWith(extensions: seq<Extension>, oid: Oid, i: nat) {
    i < |extensions| && extensions[i].oid == oid && forall j: nat :: j < i ==> extensions[j].oid != oid
  }

  /** The value of the first extension with this identifier. */
  function FindExtension(extensions: seq<Extension>, oid: Oid): (r: Option<Bytes>)
    ensures r.Some? ==> exists i: nat :: FirstWith(extensions, oid, i) && r.value == extensions[i].value
    ensures r.None? ==> forall i: nat :: i < |extensions| ==> extensions[i].oid != oid
  {
    assert extensions != [] && extensions[0].oid == oid ==> FirstWith(extensions, oid, 0);
    assert forall i: nat :: extensions != [] && extensions[0].oid != oid && FirstWith(extensions[1..], oid, i) ==>
      FirstWith(extensions, oid, i + 1);
    if extensions == [] then None
    else if extensions[0].oid == oid then Some(extensions[0].value)
    else FindExtension(extensions[1..], oid)
  }

  /** `chip_id`: ids of 8 bytes, as chips from Turin on have, are padded with zeros to 64. */
  method ChipId(extensions: Option<seq<Extension>>) returns (r: Outcome<Bytes>)
    ensures r.Ok? <==> extensions.Some? && FindExtension(extensions.value, ChipIdOid).Some?
                       && |FindExtension(extensions.value, ChipIdOid).value| in {8, CHIP_ID_SIZE}
    ensures !r.Panic?
    ensures r.Ok? ==> |r.value| == CHIP_ID_SIZE && FindExtension(extensions.value, ChipIdOid).value <= r.value
                      && AllZero(r.value[|FindExtension(extensions.value, ChipIdOid).value|..])
  {
    if extensions.None? {
      return Err;
    }
    var found := FindExtension(extensions.value, ChipIdOid);
    if found.None? {
      return Err;
    }
    var id := found.value;
    if |id| != 8 && |id| != CHIP_ID_SIZE {
      return Err;
    }
    var result := new byte[CHIP_ID_SIZE](_ => 0);
    for i := 0 to |id|
      invariant forall k :: 0 <= k < i ==> result[k] == id[k]
      invariant forall k :: i <= k < CHIP_ID_SIZE ==> result[k] == 0
    {
      result[i] := id[i];
    }
    assert result[..][..|id|] == id;
    r := Ok(result[..]);
  }

  // ---------- The whole check ----------

  datatype Report = Report(data: Bytes, chipId: Bytes, reportedTcb: TcbVersion, usesP384: bool, r: Bytes, s: Bytes)

  datatype Vcek = Vcek(extensions: Option<seq<Extension>>, publicKey: Option<Bytes>)

  /** P-384 verification of `message` under a key, on the two scalars as integers; out-of-range scalars fail. */
  type P384 = (Bytes, Bytes, nat, nat) -> bool

  /** The padded form of a chip id. */
  predicate IsPadded(id: Bytes, padded: Bytes) {
    |padded| == CHIP_ID_SIZE && id <= padded && AllZero(padded[|id|..])
  }

  /** The certificate carries the chip id of the report. */
  predicate ChipIdMatches(vcek: Vcek, report: Report) {
    && vcek.extensions.Some?
    && var id := FindExtension(vcek.extensions.value, ChipIdOid);
    && id.Some? && |id.value| in {8, CHIP_ID_SIZE} && IsPadded(id.value, report.chipId)
  }

  predicate ReportMatches(p384: P384, vcek: Vcek, report: Report, overflowChecks: bool)
    requires |report.r| == STORED_SIZE && |report.s| == STORED_SIZE
  {
    && ChipIdMatches(vcek, report) && vcek.publicKey.Some?
    && Readable(vcek.extensions.value, overflowChecks)
    && report.reportedTcb.bootLoader == Component(vcek.extensions.value, BootLoaderOid)
    && report.reportedTcb.tee == Component(vcek.extensions.value, TeeOid)
    && report.reportedTcb.snp == Component(vcek.extensions.value, SnpOid)
    && report.reportedTcb.microcode == Component(vcek.extensions.value, MicrocodeOid)
    && report.reportedTcb.fmc == Component(vcek.extensions.value, FmcOid)
    && report.usesP384
    && p384(vcek.publicKey.value, report.data, FromLeBytes(report.r[..SCALAR_SIZE]), FromLeBytes(report.s[..SCALAR_SIZE]))
  }

  lemma PaddedIsUnique(id: Bytes, a: Bytes, b: Bytes)
    requires IsPadded(id, a) && IsPadded(id, b)
    ensures a == b
  {
    forall i | 0 <= i < CHIP_ID_SIZE ensures a[i] == b[i] {
      if i >= |id| {
        assert a[|id|..][i - |id|] == 0 && b[|id|..][i - |id|] == 0;
      }
    }
  }

  /** A report is accepted exactly when it matches its certificate, the signature being checked on the
      little-endian integers the report stores. */
  method VerifyAttestationReportSignature(p384: P384, vcek: Vcek, report: Report, overflowChecks: bool)
    returns (result: Outcome<()>)
    requires |report.r| == STORED_SIZE && |report.s| == STORED_SIZE
    ensures result == Ok(()) <==> ReportMatches(p384, vcek, report, overflowChecks)
    ensures result == Panic <==> ChipIdMatches(vcek, report) && !Readable(vcek.extensions.value, overflowChecks)
  {
    var chipId := ChipId(vcek.extensions);
    if chipId.IsFailure() {
      return Err;
    }
    ghost var id := FindExtension(vcek.extensions.value, ChipIdOid).value;
    if report.chipId != chipId.value {
      assert !IsPadded(id, report.chipId) by {
        if IsPadded(id, report.chipId) {
          PaddedIsUnique(id, report.chipId, chipId.value);
        }
      }
      return Err;
    }
    var tcb := ParseTcbVersion(vcek.extensions, overflowChecks);
    if tcb.Panic? {
      return Panic;
    }
    if tcb.Err? || report.reportedTcb != tcb.value || !report.usesP384 || vcek.publicKey.None? {
      return Err;
    }
    var r, s := MirrorScalars(report.r, report.s);
    result := Ensure(p384(vcek.publicKey.value, report.data, FromBeBytes(r[..]), FromBeBytes(s[..])));
  }
}
