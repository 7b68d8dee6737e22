/** Verification of Confidential Space attestation tokens: a full report over the
    token and its certificate chain, and the decision taken from the report. */
module Jwt {
  import opened Prelude

  /** Nanoseconds since the Unix epoch. */
  type Instant = int

  datatype Certificate = Certificate(der: Bytes, notBefore: Instant, notAfter: Instant)

  datatype Claims = Claims(audience: string, debugStatus: string, softwareName: string, supportAttributes: seq<string>,
                           notBefore: Instant, notAfter: Instant, eatNonce: string,
                           imageReference: string, imageDigest: string)

  /** A parsed token: the `x5c` header, the claims and the signed text with its signature. */
  datatype Token = Token(chain: seq<string>, claims: Claims, signedText: string, signature: Bytes)

  /** X.509 and RS256 as libraries provide them: decoding base64 DER, and the two signature checks,
      which also fail when the issuer's public key is unusable. */
  datatype X509 = X509(decode: string -> Option<Certificate>, certifies: (Certificate, Certificate) -> bool,
                       signs: (Certificate, Token) -> bool)

  datatype IssuerReport = OtherCertificate(report: Outcome<CertificateReport>) | Root

  datatype CertificateReport =
    CertificateReport(validity: Outcome<()>, verification: Outcome<()>, issuerReport: IssuerReport)

  datatype TokenReport = TokenReport(hasRequiredClaims: Outcome<()>, validity: Outcome<()>,
                                     verification: Outcome<Token>, issuerReport: Outcome<CertificateReport>)

  predicate Within(notBefore: Instant, notAfter: Instant, time: Instant) {
    notBefore <= time <= notAfter
  }

  /** `verify_certificate_validity` and `verify_token_validity`. */
  function VerifyValidity(notBefore: Instant, notAfter: Instant, time: Instant): (r: Outcome<()>) {
    if notBefore > time then Err else if time > notAfter then Err else Ok(())
  }

  function EnforceRequiredClaims(claims: Claims, audience: string): (r: Outcome<()>) {
    if claims.audience != audience then Err
    else if claims.debugStatus != "disabled-since-boot" then Err
    else if claims.softwareName != "CONFIDENTIAL_SPACE" then Err
    else if "STABLE" !in claims.supportAttributes then Err
    else Ok(())
  }

  /** The last certificate that decoded while walking `chain` from its end, or the root. */
  function Issuer(x: X509, root: Certificate, chain: seq<string>): (r: Certificate) {
    if chain == [] then root
    else match x.decode(chain[0])
      case Some(certificate) => certificate
      case None => Issuer(x, root, chain[1..])
  }

  /** The report on `chain`, its first certificate outermost; `None` for an empty chain. */
  function ChainReport(x: X509, root: Certificate, time: Instant, chain: seq<string>)
    : (r: Option<Outcome<CertificateReport>>)
  {
    if chain == [] then None
    else
      match x.decode(chain[0])
      case None => Some(Err)
      case Some(certificate) =>
        Some(Ok(CertificateReport(
          VerifyValidity(certificate.notBefore, certificate.notAfter, time),
          Ensure(x.certifies(Issuer(x, root, chain[1..]), certificate)),
          match ChainReport(x, root, time, chain[1..])
          case Some(report) => OtherCertificate(report)
          case None => Root)))
  }

  /** The full report, as a function of the token. */
  function Report(x: X509, token: Token, root: Certificate, time: Instant, audience: string): (r: TokenReport) {
    TokenReport(
      EnforceRequiredClaims(token.claims, audience),
      VerifyValidity(token.claims.notBefore, token.claims.notAfter, time),
      if x.signs(Issuer(x, root, token.chain), token) then Ok(token) else Err,
      match ChainReport(x, root, time, token.chain)
      case Some(report) => report
      case None => Err)
  }

  method ReportAttestationToken(x: X509, token: Token, root: Certificate, time: Instant, audience: string)
    returns (r: TokenReport)
    ensures r == Report(x, token, root, time, audience)
  {
    var issuer := root;
    var issuerReport: Option<Outcome<CertificateReport>> := None;
    var i := |token.chain|;
    while i > 0
      invariant 0 <= i <= |token.chain|
      invariant issuer == Issuer(x, root, token.chain[i..])
      invariant issuerReport == ChainReport(x, root, time, token.chain[i..])
    {
      i := i - 1;
      assert token.chain[i..][1..] == token.chain[i + 1..];
      match x.decode(token.chain[i]) {
        case None => issuerReport := Some(Err);
        case Some(certificate) =>
          var validity := VerifyValidity(certificate.notBefore, certificate.notAfter, time);
          var verification := Ensure(x.certifies(issuer, certificate));
          issuer := certificate;
          issuerReport := Some(Ok(CertificateReport(validity, verification,
            match issuerReport
            case Some(report) => OtherCertificate(report)
            case None => Root)));
      }
    }
    assert token.chain[0..] == token.chain;
    r := TokenReport(EnforceRequiredClaims(token.claims, audience),
                     VerifyValidity(token.claims.notBefore, token.claims.notAfter, time),
                     if x.signs(issuer, token) then Ok(token) else Err,
                     if issuerReport.Some? then issuerReport.value else Err);
  }

  /** All reports down to the root are good. */
  predicate AllGood(report: Outcome<CertificateReport>) {
    && report.Ok?
    && report.value.validity == Ok(())
    && report.value.verification == Ok(())
    && (report.value.issuerReport.OtherCertificate? ==> AllGood(report.value.issuerReport.report))
  }

  function CheckedToken(report: TokenReport): (r: Outcome<Token>) {
    if report.hasRequiredClaims == Ok(()) && report.validity == Ok(()) && report.verification.Ok?
       && AllGood(report.issuerReport)
    then report.verification
    else Err
  }

  method IntoCheckedToken(report: TokenReport) returns (r: Outcome<Token>)
    ensures r == CheckedToken(report)
  {
    if report.hasRequiredClaims == Ok(()) && report.validity == Ok(()) && report.verification.Ok? {
      var current := report.issuerReport;
      while true
        invariant AllGood(current) <==> AllGood(report.issuerReport)
        decreases current
      {
        if !current.Ok? || current.value.validity != Ok(()) || current.value.verification != Ok(()) {
          return Err;
        }
        match current.value.issuerReport {
          case Root => return Ok(report.verification.value);
          case OtherCertificate(certificateReport) => current := certificateReport;
        }
      }
    } else {
      r := Err;
    }
  }

  // ---------- What acceptance means ----------

  /** Certificate `i` of the chain decodes, is in force, and was issued by the next one, or by the root. */
  predicate LinkHolds(x: X509, root: Certificate, time: Instant, chain: seq<string>, i: nat)
    requires i < |chain|
  {
    && x.decode(chain[i]).Some?
    && Within(x.decode(chain[i]).value.notBefore, x.decode(chain[i]).value.notAfter, time)
    && (i + 1 == |chain| ==> x.certifies(root, x.decode(chain[i]).value))
    && (i + 1 < |chain| ==>
          x.decode(chain[i + 1]).Some? && x.certifies(x.decode(chain[i + 1]).value, x.decode(chain[i]).value))
  }

  /** The certification path of section 4.1.6 of RFC 7515, ending in the root. */
  predicate ChainHolds(x: X509, root: Certificate, time: Instant, chain: seq<string>) {
    chain != [] && forall i: nat :: i < |chain| ==> LinkHolds(x, root, time, chain, i)
  }

  predicate RequiredClaims(claims: Claims, audience: string) {
    && claims.audience == audience
    && claims.debugStatus == "disabled-since-boot"
    && claims.softwareName == "CONFIDENTIAL_SPACE"
    && "STABLE" in claims.supportAttributes
  }

  predicate TokenAccepted(x: X509, token: Token, root: Certificate, time: Instant, audience: string) {
    && RequiredClaims(token.claims, audience)
    && Within(token.claims.notBefore, token.claims.notAfter, time)
    && ChainHolds(x, root, time, token.chain)
    && x.decode(token.chain[0]).Some? && x.signs(x.decode(token.chain[0]).value, token)
  }

  /** The nested report is good exactly when the chain is a certification path. */
  lemma {:induction false} GoodReportIsPath(x: X509, root: Certificate, time: Instant, chain: seq<string>)
    requires chain != []
    ensures ChainReport(x, root, time, chain).Some?
    ensures AllGood(ChainReport(x, root, time, chain).value) <==> ChainHolds(x, root, time, chain)
    decreases |chain|
  {
    var rest := chain[1..];
    if rest == [] {
      assert AllGood(ChainReport(x, root, time, chain).value) <==> LinkHolds(x, root, time, chain, 0);
      assert |chain| == 1;
    } else {
      GoodReportIsPath(x, root, time, rest);
      assert forall i: nat :: i < |rest| ==> rest[i] == chain[i + 1];
      if ChainHolds(x, root, time, chain) {
        forall i: nat | i < |rest| ensures LinkHolds(x, root, time, rest, i) {
          assert LinkHolds(x, root, time, chain, i + 1);
        }
        assert LinkHolds(x, root, time, chain, 0);
      }
      if AllGood(ChainReport(x, root, time, chain).value) {
        assert LinkHolds(x, root, time, rest, 0);
        assert LinkHolds(x, root, time, chain, 0);
        forall i: nat | i < |chain| ensures LinkHolds(x, root, time, chain, i) {
          if i > 0 {
            assert LinkHolds(x, root, time, rest, i - 1);
          }
        }
      }
    }
  }

  /** A token is accepted if and only if its claims are the required ones, it and every certificate are
      in force, the chain is a certification path to the root, and the first certificate signed it. */
  lemma TokenAcceptedExactly(x: X509, token: Token, root: Certificate, time: Instant, audience: string)
    ensures CheckedToken(Report(x, token, root, time, audience))
         == if TokenAccepted(x, token, root, time, audience) then Ok(token) else Err
  {
    if token.chain != [] {
      GoodReportIsPath(x, root, time, token.chain);
      assert ChainHolds(x, root, time, token.chain) ==> LinkHolds(x, root, time, token.chain, 0);
    }
  }

  method VerifyAttestationToken(x: X509, token: Token, root: Certificate, time: Instant, audience: string)
    returns (r: Outcome<Token>)
    ensures r == if TokenAccepted(x, token, root, time, audience) then Ok(token) else Err
  {
    var report := ReportAttestationToken(x, token, root, time, audience);
    r := IntoCheckedToken(report);
    TokenAcceptedExactly(x, token, root, time, audience);
  }
}
