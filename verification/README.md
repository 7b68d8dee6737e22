# Verified models of Project Oak's attestation pipeline and its neighbours

This project states in Dafny what the central parts of Project Oak do and proves what they are for.
`dafny verify dfyconfig.toml` checks all of it.

**DICE attestation.** `DiceAttester` certifies a fresh key for every boot event and hands itself to the next stage as
bytes. The verifier checks the certificate chain, reads measurements back from the event log or from certificate claims
and compares them with expected values. `Dice`, `DiceRuns`, `Extract`, `Verifier` and `Compare` model the five steps;
`LengthDelimited` is the framing of the handover and `Certificates` the CBOR Web Tokens. The theorems are about whole
runs: what every run produces (`DiceRuns`), what anyone can make the verifier accept afterwards (`ChainTheorems`), when
the complete verifier accepts and what its acceptance says about honest stages (`EndToEnd`, `Stacks`,
`StackSoundness`), and when its two sources of measurements agree (`Routes`).

**RTMR attestation.** `Rtmr` is the TDX counterpart: a log that has to replay to a hardware register, across refused
extensions and handovers.

**HTTP response reader.** `Http` is the hand-written parser that fetches Confidential Space tokens, `HttpTheorems` says
which responses it delimits and why the three body framings agree. `Text` and `Utf8` hold the string functions it uses.

**Ownership across the C++/Rust boundary.** `Ffi` is a ledger of Rust allocations with the move-only C++ holders as
steps over it, and the same operations as methods of a class.

**Encrypted sessions.** `Session` is the pair of `ClientEncryptor` and `ServerEncryptor` over a network that loses,
repeats, reorders and injects messages.

**microRPC.** `MicroRpc` is the generator of client stubs and dispatching servers, given by what the generated code
means, with the run-time library it calls.

**Confidential Space.** `Jwt` verifies a token and its certificate chain; `ConfidentialSpace` relates the policy
generated from reference values to the assertion verifier that reads the same values.

**AMD reports.** `Amd` ties an SEV-SNP report to its certificate, down to the byte order of the signature.

## What is symbolic

- Signatures, certificates and their encodings are symbolic values: a signature records the key it verifies under and
  what it covers. Private keys occur only in the attester's state and in its handover buffer.
- SHA-256, SHA-384, key identifiers, protobuf decoders, report parsers, regular expressions and the platform checks on
  reports are arbitrary functions passed as parameters. No theorem assumes that a hash is injective, which no function
  to fixed-length digests is. Where a collision would matter the conclusion is about digests, or offers as the only
  alternative a collision among the inputs that the log and the run at hand make the code hash (`ReplayBinds`,
  `ContainersAcceptanceBinds`).
- The claims builder panics on names it does not take: private-use ids that are not below -65536, and the seven core
  claims. Encoding a certificate into memory always succeeds.
- Protobuf codecs are parameters; theorems that need it require that decoding undoes encoding.
- Random keys, nonces and ephemeral keys are parameters. A generator or library call that can fail is an optional value.
- HPKE is symbolic: both ends derive one secret from the encapsulated key and the recipient's key, and a ciphertext opens
  only with the key, nonce and associated data it was sealed with.
- A Rust call has three outcomes: a value, an error, or a panic. Error messages are dropped, except in `MicroRpc`, where
  the status code and message are part of the result; of the messages for undecodable bytes only the fixed text is kept,
  not the decoder's own explanation.

## Where the code and its documentation differ

The model follows the code.

- The reader prefers Content-Length over chunked encoding when a response has both; section 6.3 of RFC 9112 says the
  opposite (oak_attestation_gcp/src/attestation.rs:190-200).
- Decoding a handover buffer shorter than its eight-byte prefix panics instead of returning an error
  (oak_attestation_types/src/util.rs:38-53).
- A server encryptor keeps the context made from the first usable encapsulated key even when that request then fails
  to decrypt (cc/crypto/server_encryptor.cc:40-63). `RequestDelivery` gives the exact condition this puts on delivery.
- The asynchronous microRPC client maps a response wrapper without content to `Internal`, the synchronous one to
  `InvalidArgument` (micro_rpc/src/lib.rs:74-85, 146-181). `ClientsAgreeUnlessEmptyWrapper` shows this is the only
  difference.
- Without an endorsement the assertion verifier checks a default one where the policy reports a missing one
  (oak_attestation_gcp/src/assertions.rs:87-93). `AgreementWithoutEndorsement` gives the exact condition for agreement.
- Claim ids `KERNEL_COMMANDLINE_ID` and `EVENT_ID` have the same value (oak_dice/src/cert.rs:56-76); the first is only
  looked up inside the kernel layer's map and the second only among the top-level claims.

## Model

| member | source | states |
|---|---|---|
| `LengthDelimited.Encode` | oak_attestation_types/src/util.rs:61-69 | the vector holds the 64-bit little-endian length and then the message; it panics exactly when the frame exceeds the largest allocation |
| `LengthDelimited.LeBytesRoundTrip` | oak_attestation_types/src/util.rs:61-69 | little-endian encoding of any width loses nothing that fits, and its value is always in range |
| `LengthDelimited.DecodeEncoded` | oak_attestation_types/src/util.rs:38-69 | decoding undoes encoding whatever bytes follow in the buffer |
| `LengthDelimited.TruncatedIsRejected` | oak_attestation_types/src/util.rs:38-53 | no proper prefix of an encoding decodes: inside the length it panics, after it it is an error |
| `LengthDelimited.DecodesExactlyFrames` | oak_attestation_types/src/util.rs:38-53 | a buffer decodes to a message if and only if it is a complete frame around bytes that decode to it, followed by anything |
| `Certificates.GeneratedCertificateCertifies` | oak_dice/src/cert.rs:272-376 | a certificate is generated if and only if the builder takes the names of all additional claims; it then verifies under the issuer's key and no other, and certifies the key it was made for, with the key usage of a signing key, whatever those claims are |
| `Dice.FromDiceData` | oak_attestation/src/dice.rs:301-319 | it succeeds exactly when evidence and a private key are present, and loses nothing of the message |
| `Dice.MeasureDigest` | oak_attestation/src/lib.rs:98-109 | the chunk loop hashes the whole contents, however the buffer is cut into chunks |
| `Dice.DiceAttester.ExtendWith` | oak_attestation/src/dice.rs:161-204 | the new state is that of `Extend`; a call that finds no issuer or cannot generate the certificate changes nothing |
| `Dice.DiceAttester.ExtendTransparent` | oak_attestation/src/dice.rs:212-271 | the same with two digests and two log entries |
| `Dice.DiceAttester.SerializeAndConsume` | oak_attestation/src/dice.rs:281-298 | the buffer is the framed message, and the consumed attester holds no key |
| `Dice.DeserializeAttester` | oak_attestation/src/dice.rs:274-279 | a fresh attester in the state the buffer holds, or an error and no attester |
| `DiceRuns.RunClosedForm` | oak_attestation/src/dice.rs:161-271 | a run from an attester whose key matches its evidence never fails, and its whole result is known in closed form |
| `DiceRuns.ChainSafety` | oak_attestation/src/dice.rs:161-298 | in every reachable attester each added layer is signed by the key before it and by no other, names that key as issuer and certifies the next; the message it is serialized as contains exactly one private key, the last one, and none of the earlier ones if keys do not repeat |
| `DiceRuns.InterleavedLogs` | oak_attestation/src/dice.rs:161-271 | for every mix of the two extensions: events minus layers is constant, each layer carries the digest of its own event, transparent entries follow the layers that carry a transparent claim, and earlier evidence stays a prefix |
| `DiceRuns.SerializeRoundTrips` | oak_attestation/src/dice.rs:274-319 | deserializing undoes serializing, with any bytes after the buffer |
| `DiceRuns.ErasedKeysAreNotSerialized` | oak_attestation/src/dice.rs:281-298 | decoding the buffer of a serialized run, with any bytes after it, yields the current private key and no key the run replaced |
| `DiceRuns.HandoffRefinesUncutRun` | oak_attestation/src/dice.rs:274-319 | cutting a run at any points by serializing and deserializing, with any trailing bytes, ends exactly as the uncut run if every handover fits the largest allocation, and panics otherwise |
| `Digests.GetRawDigestMatch` | util/digest/proto.rs:71-106 | the four results, from whether some algorithm on both sides agrees and whether some disagrees |
| `Digests.IsRawDigestMatch` | util/digest/proto.rs:120-129 | a match if and only if some common algorithm agrees and none disagrees |
| `Digests.MatchesExactly` | util/digest/proto.rs:71-129 | the same said algorithm by algorithm, for all nine fields of the message |
| `Digests.Sha256Matches` | util/digest/proto.rs:71-129 | a lone SHA2-256 digest matches exactly the messages that carry the same one |
| `Digests.Sha384Matches` | util/digest/proto.rs:71-129 | the same for SHA2-384 |
| `Extract.DecodeEvents` | oak_attestation_verification/src/extract.rs:82-134 | it succeeds exactly when every event decodes, and keeps their order |
| `Extract.ExtractCbLayers` | oak_attestation_verification/src/extract.rs:226-238 | the loop yields the SHA2-256 digest of each encoded event in order |
| `Extract.ConvertToRawDigest` | oak_attestation_verification/src/extract.rs:558-576 | the loop accepts exactly maps whose entries are all byte strings under the SHA2-256 label, and the last one counts |
| `ChainTheorems.VerifyIssuedLayers` | oak_attestation_verification/src/verifier.rs:283-357 | the fold over the layers of any run succeeds and ends with the key the attester holds |
| `ChainTheorems.LayerCaptures` | oak_attestation_verification/src/verifier.rs:539-573 | a layer captures an event if and only if the event has the digest of the one the layer was issued for |
| `ChainTheorems.RunStaysVerified` | oak_attestation_verification/src/verifier.rs:283-357 | evidence that verifies keeps verifying however the attester is extended |
| `ChainTheorems.HonestEvidenceVerifies` | oak_attestation_verification/src/verifier.rs:283-357 | the evidence of every run from stage 0's attester verifies and yields the public half of the held key |
| `ChainTheorems.TransparentVerificationCondition` | oak_attestation_verification/src/verifier.rs:283-357 | verification against the transparent log succeeds if and only if the run made at least one extension and only transparent ones |
| `ChainTheorems.TamperEvidence` | oak_attestation/README.md:143-150 | once a run has erased its keys, whatever evidence verifies under the same root repeats its layers and, in either shape of the log, the digests of its events position by position; if it stops early it ends with a key that no longer exists |
| `ChainTheorems.HistoryIsComplete` | oak_attestation_verification/src/verifier.rs:363-446 | evidence accepted together with application keys contains every layer of the run |
| `ChainTheorems.NoMisreporting` | oak_attestation_verification/src/extract.rs:226-322 | by either route, the first layers extracted from accepted CB evidence are the digests of exactly the events the run recorded |
| `EndToEnd.ApplicationKeysRoundTrip` | oak_attestation/src/dice.rs:70-157 | extraction returns the two keys passed in; each group certificate certifies the group key of its own kind, if there is one; all certificates are issued by the last layer's subject under the current key only and nothing else changes; the call is an error exactly without layers and panics exactly on claim names the builder does not take |
| `EndToEnd.RunsCanBeClosed` | oak_attestation/src/dice.rs:70-157 | a run can be closed with application keys if and only if it has an extension and the builder takes the names of the additional claims |
| `EndToEnd.HonestEvidenceIsAccepted` | oak_attestation_verification/src/verifier.rs:363-446 | on evidence of a run closed with application keys the verifier answers what extraction answers |
| `EndToEnd.HonestEvidenceIsUnforged` | oak_attestation/README.md:143-150 | the evidence of every run with fresh keys meets the assumptions of the theorems about tampering |
| `EndToEnd.AcceptedKeysAreTheRuns` | oak_attestation_verification/src/verifier.rs:410-446 | whoever presents evidence under the root of a finished run closed with application keys: if it is accepted and its chain ends where the run ended, the encryption and signing keys reported are those of the run; a longer chain goes on from the run's own signing key certificate |
| `EndToEnd.HonestKeysAreUnforged` | oak_attestation/src/dice.rs:70-157 | the evidence of the run itself meets that theorem's assumption about the key the run held last |
| `EndToEnd.KindOfLog` | oak_attestation_verification/src/extract.rs:82-134 | an event log is read as CB if and only if it has three or more events, all decode and their types are neither of the two containers triples; undecodable events, and fewer than three that are not the Restricted Kernel pair, are an error |
| `EndToEnd.EventMatchesIffDigest` | oak_attestation_verification/src/compare.rs:259-330 | an event layer is accepted exactly when skipped or when its SHA2-256 digest is listed |
| `EndToEnd.RootAcceptedExactly` | oak_attestation_verification/src/compare.rs:156-202 | extraction and comparison accept a root layer if and only if, on AMD, the report parses, its initial measurement is skipped or an expected SHA2-384 digest and its platform values pass, or there are no expected AMD values and insecure reports are allowed; without a TEE, the report parses and insecure ones are allowed; on any other platform never |
| `EndToEnd.CbEndToEnd` | oak_attestation_verification/src/verifier.rs:198-270 | for every closed run of three or more extensions whose events decode and do not have the types of a containers stack: the complete verifier accepts if and only if the root layer is accepted, there are as many expected layers as events, and each event's digest is expected at its position |
| `EndToEnd.AcceptanceBindsHonestStages` | oak_attestation_verification/src/verifier.rs:198-270 | whoever presents CB evidence under the root of a finished run, acceptance means the root was accepted and every event the run recorded was expected at its position |
| `Stacks.KernelComparison` | oak_attestation_verification/src/compare.rs:203-257 | stage 0's measurements are accepted if and only if each one is expected in the field of its own name, the command line being shorter than 256 bytes unless skipped |
| `Stacks.LeafExactly` | oak_attestation_verification/src/compare.rs:313-330 | a measurement is accepted if and only if it is present and the expected value is skipped or lists a digest that agrees with it on some algorithm and conflicts on none |
| `Stacks.ContainersEndToEnd` | oak_attestation_verification/src/compare.rs:97-124 | for every run recording an Oak Containers stack, in either form of its messages: the complete verifier accepts if and only if the root layer is accepted and every recorded measurement is expected in its place |
| `Stacks.RestrictedKernelIsAccepted` | oak_attestation_verification/src/verifier.rs:491-532 | evidence with one layer, two events and application keys that commit to the second passes the chain verifier |
| `Stacks.RestrictedKernelEndToEnd` | oak_attestation_verification/src/compare.rs:72-93 | the same end-to-end equivalence for Restricted Kernel evidence |
| `Stacks.OrchestratorMeasurementsExpected` | oak_restricted_kernel_orchestrator/src/lib.rs:60-88 | what the orchestrator records is accepted if and only if the application's digest is expected and its configuration, recorded as an empty digest, is skipped |
| `StackSoundness.AcceptedLogRepeatsRun` | oak_attestation_verification/src/verifier.rs:363-446 | accepted evidence of a fixed-shape stack under the root of a finished run was read from its log, and the log starts with events of the digests the run recorded |
| `StackSoundness.ContainersAcceptanceBinds` | oak_attestation_verification/src/verifier.rs:198-270 | whoever presents evidence under the root of a finished run, acceptance as Oak Containers means the root was accepted and every event the run recorded is a message of its stage whose measurements were expected, or the log shows a concrete SHA-256 collision with it |
| `StackSoundness.RestrictedKernelAcceptanceBinds` | oak_attestation_verification/src/verifier.rs:198-270 | the same for Restricted Kernel and the events recorded by extensions |
| `StackSoundness.OrchestratorAcceptanceBinds` | oak_restricted_kernel_dice/src/lib.rs:63-115 | with an honest orchestrator the same holds for the application's event, to which only the application key certificates commit |
| `StackSoundness.OrchestratorEvidenceIsUnforged` | oak_restricted_kernel_orchestrator/src/lib.rs:66-100 | the orchestrator's own evidence meets the assumptions of these theorems |
| `Compare.KindsMustAgree` | oak_attestation_verification/src/compare.rs:44-151 | evidence is accepted only by expected values of its own kind and with a root layer on both sides; CB evidence and expected values that both lack one are compared by their layers alone |
| `Compare.WideningKeepsAcceptance` | oak_attestation_verification/src/compare.rs:44-349 | enlarging any list, skipping or filling in any leaf, anywhere in the tree of expected values, never turns acceptance into rejection |
| `Compare.OrderIsIrrelevant` | oak_attestation_verification/src/compare.rs:313-350 | expected values with the same members in their lists accept the same evidence |
| `Routes.CbRoutesAgree` | oak_attestation_verification/src/extract.rs:226-326 | for every such run, event log and certificate claims give the same values if and only if the additional claims describe no container or application |
| `Routes.ClaimsRouteShape` | oak_attestation_verification/src/extract.rs:240-326 | a container among the final claims comes before an application; evidence with another number of layers than their stack has is an error, and the answer is of their kind |
| `Routes.CommandLineOutcomes` | oak_attestation_verification/src/extract.rs:457-478 | a kernel command line claim that is not text panics, a missing one is no error |
| `Routes.ClaimedKeysAreExtracted` | oak_attestation_verification/src/extract.rs:358-420 | keys not certified as COSE keys are taken from plain claims, each from its own certificate |
| `Routes.KernelClaimMatchesEvent` | oak_attestation_verification/src/extract.rs:457-603 | reading a kernel layer claim gives what converting the event with the same measurements gives |
| `Routes.ContainerRoutesAgree` | oak_attestation_verification/src/extract.rs:137-304 | when claims and events carry the same Oak Containers measurements both routes report the same stack, the claims route without container keys |
| `Routes.RestrictedKernelRoutesAgree` | oak_attestation_verification/src/extract.rs:137-304 | when claims and events carry the same Restricted Kernel measurements both routes give the same values |
| `Rtmr.RtmrAttester.ExtendWith` | oak_attestation_tdx/src/lib.rs:65-84 | the event is logged whether or not the register accepts it |
| `Rtmr.CheckEventLog` | oak_attestation_verification/src/verifiers.rs:330-341 | the check succeeds if and only if the log is present and replays from the reset state to the quoted register |
| `Rtmr.RunLogsAllExtendsAccepted` | oak_attestation_tdx/src/lib.rs:65-129 | over every run, handovers included, the log gains all events and the register exactly those whose extension succeeded |
| `Rtmr.ReplayBinds` | oak_attestation_verification/src/intel.rs:150-171 | two logs that replay to one register from one initial register are the same log, or replaying the two shows a collision among what they hash |
| `Rtmr.AcceptedLogIsTheRun` | oak_attestation_verification/src/verifiers.rs:330-341 | a log replays to the register a run left behind if it consists of exactly the events whose extension succeeded, in order, and only if it does or the two replays show a concrete collision |
| `Rtmr.ReplayMatchesRegister` | oak_attestation_tdx/src/lib.rs:65-129 | on every run from a reset register the attester's log is all its events, and the verifier's replay of it gives RTMR2 if every extension succeeded, and only then unless the replays of logged and accepted events show a concrete collision |
| `Rtmr.QuotedLogVerdict` | oak_attestation_tdx/src/lib.rs:86-103 | the quote of a run is its evidence with a TDX root layer whose report parses to RTMR2; evidence that carries it, with whatever log, replays to the quoted register if its log is the accepted events of that run, and only then unless the replays show a concrete collision |
| `Rtmr.UnifiedHandover` | oak_containers/attester/src/lib.rs:93-122 | a handover gives back the same attester if and only if the evidence names the platform of its kind, and is an error if it names none |
| `Http.ReadLine` | oak_attestation_gcp/src/attestation.rs:140-171 | reading a line never panics, and a line with text leaves less to read, which is why the loops over lines end |
| `Http.ResponseReader.NextLine` | oak_attestation_gcp/src/attestation.rs:140-171 | the reader moves past the first newline, or to the end, and fails on text that is not UTF-8 |
| `Http.ResponseReader.Exactly` | oak_attestation_gcp/src/attestation.rs:190-197 | exactly the announced bytes, an error when the stream is short, which uses it up, and a panic above the largest allocation, which reads nothing |
| `Http.ResponseReader.Headers` | oak_attestation_gcp/src/attestation.rs:162-188 | the header loop ends on every stream and yields the framing and headers of `ReadHeaders` |
| `Http.ResponseReader.NextChunk` | oak_attestation_gcp/src/attestation.rs:201-228 | one round of the chunk loop |
| `Http.ResponseReader.Chunks` | oak_attestation_gcp/src/attestation.rs:200-229 | the chunk loop ends on every stream, the unread bytes decreasing, with the concatenation of all chunks |
| `Http.ResponseReader.Body` | oak_attestation_gcp/src/attestation.rs:190-237 | the body by length, else by chunks, else up to the end |
| `Http.ReadResponse` | oak_attestation_gcp/src/attestation.rs:137-246 | the response of `ParseResponse`, or its error or panic |
| `HttpTheorems.StableExactlyWhenFramed` | oak_attestation_gcp/src/attestation.rs:137-246 | a parsed response is independent of what follows it in the stream if and only if its body is delimited by length or chunks and every line of it ended in a newline |
| `HttpTheorems.StatusLineExactly` | oak_attestation_gcp/src/attestation.rs:140-158 | a status line is read if and only if its first word is HTTP/1.1 and its second is three decimal digits of which the first is not zero, and the status is the number they write; anything else is an error |
| `HttpTheorems.StatusLineReads` | oak_attestation_gcp/src/attestation.rs:140-158 | the line a server sends for any code from 100 to 999, with any reason, reads as that code |
| `HttpTheorems.FramingsAgree` | oak_attestation_gcp/src/attestation.rs:137-246 | every body, sent by length, in any cut into non-empty chunks, or up to the end of the stream, under any code, reason and other headers, gets the same verdict: its status, headers and text if it is UTF-8 and the headers are legal, and an error otherwise |
| `HttpTheorems.LengthWinsOverChunks` | oak_attestation_gcp/src/attestation.rs:190-200 | with both a length and chunked encoding announced, in either order, the body is the one of that length |
| `HttpTheorems.MalformedIsRejected` | oak_attestation_gcp/src/attestation.rs:162-228 | a header without a colon, a Content-Length that is not a decimal and a chunk size that is not a hexadecimal number are errors; each Transfer-Encoding header replaces the last, and only the value chunked means chunks |
| `Ffi.StepKeepsInv` | cc/oak_session/config.h:66-164 | every operation on a well-owned world is defined, except reading a moved-from `RustBytes`, and leaves it well-owned |
| `Ffi.RunIsMemorySafe` | cc/oak_session/config.cc:59-147 | any program of construction, moves, self-assignment, release, `Add*`, `Set*`, `Build`, raw calls, `UpdateRaw` with any callback, and destruction frees nothing twice and uses nothing after it was freed, if and only if it reads no moved-from `RustBytes` |
| `Ffi.AtMostOneOwner` | cc/ffi/rust_bytes.h:46-98 | in every reachable world no two holders share a pointer, and none shares one with code that released it |
| `Ffi.AllAccountedFor` | oak_ffi/bytes.rs:86-160 | once all holders are gone the live allocations are exactly those the program was handed by `release`, `Build` or a raw call and has not given back, which is a function of the program; all others have been returned to Rust with their contents |
| `Ffi.HoldersLeaveNothingLive` | cc/oak_session/config.h:66-164 | a program without those three operations leaves nothing live |
| `Ffi.MoveAssignMoves` | cc/oak_session/config.h:128-133 | what the target held is dead, the target has what the source had and the source is null |
| `Ffi.AddOrSetReplaces` | cc/oak_session/config.cc:59-121 | the old builder is dead, the object returned holds the new live one and the called one is empty; without a builder both are empty and nothing is called |
| `Ffi.BuildConsumes` | cc/oak_session/config.cc:123-128 | the builder is dead and its object empty, and a live configuration is in the hands of the caller; without a builder there is none |
| `Ffi.BuildHolderConsumes` | cc/oak_session/config.cc:145-147 | the same with the configuration in the holder returned |
| `Ffi.RepliesAreHeld` | cc/ffi/rust_bytes.h:104-116 | bytes end up live in one holder, an error is freed, an empty reply does nothing |
| `Ffi.RunKeepsDead` | oak_ffi/error.rs:57-101 | over a whole run an allocation dies at most once and never comes back |
| `Ffi.Process.PassToRust` | oak_ffi/bytes.rs:130-160 | the box and its contents die together, and both were live |
| `Ffi.Process.ReleaseHolder` | cc/oak_session/config.h:88-94 | the holder becomes null and its pointer passes to the caller |
| `Ffi.Process.MoveConstructHolder` | cc/oak_session/config.h:124-126 | the new holder owns what the source owned, and the source is null |
| `Ffi.Process.MoveAssignHolder` | cc/oak_session/config.h:128-133 | what the target held is freed and it takes over the source; self-assignment changes nothing |
| `Ffi.Process.DestroyHolder` | cc/oak_session/config.h:139-146 | what the holder still holds is freed and the holder is gone |
| `Ffi.Process.AddOrSetOn` | cc/oak_session/config.cc:59-121 | the builder is consumed and replaced, and the object returned owns the new one; without a builder nothing is called |
| `Ffi.Process.BuildConfig` | cc/oak_session/config.cc:123-128 | the builder is consumed into a configuration, or the result is null once it is used up |
| `Ffi.Process.BuildConfigHolder` | cc/oak_session/config.cc:145-147 | the same into a holder |
| `Ffi.UpdateRawMovesThrough` | cc/oak_session/config.cc:130-143 | with any callback: without a builder nothing happens; otherwise the builder ends up with exactly what the returned holder held, empty or not, and a failing callback leaves nothing behind in its parameter |
| `Ffi.Process.BeginUpdate` | cc/oak_session/config.cc:130-137 | the builder moves into the callback's parameter, or nothing happens without one |
| `Ffi.Process.EndUpdate` | cc/oak_session/config.cc:137-143 | the returned holder moves into the builder by way of a temporary, and parameter and temporary are destroyed |
| `Ffi.Process.ReceiveReply` | cc/ffi/rust_bytes.h:104-116 | an error is read and freed, bytes get one holder, nothing leaks |
| `Session.CreateClientEncryptor` | cc/crypto/client_encryptor.cc:38-46 | a client whose secret is bound to the server's key and which has not sent its own, or an error |
| `Session.ClientEncryptor.Encrypt` | cc/crypto/client_encryptor.cc:48-79 | a sealed request under the nonce drawn for it, with the encapsulated key the first time only; a failing call changes nothing |
| `Session.ClientEncryptor.Decrypt` | cc/crypto/client_encryptor.cc:81-96 | content comes out if and only if the message is the sealing of that content under the response key of this client's secret, with the nonce and associated data the message shows |
| `Session.ServerEncryptor.InitializeRecipientContexts` | cc/crypto/server_encryptor.cc:95-116 | the context comes from the request's key, or nothing changes |
| `Session.ServerEncryptor.Decrypt` | cc/crypto/server_encryptor.cc:40-63 | a missing context is set up first and kept even if the request then fails to open |
| `Session.ServerEncryptor.Encrypt` | cc/crypto/server_encryptor.cc:65-93 | an error exactly without context or nonce; otherwise a message that carries the nonce drawn for it and opens to the content under the response key of the context and under no other key |
| `Session.ContextIsFirstKey` | cc/crypto/server_encryptor.cc:40-116 | after any sequence of requests the context is the one of the first usable key and was set at most once |
| `Session.SessionSafety` | cc/crypto/server_encryptor.cc:40-116 | over every run against a network that loses, repeats, reorders and injects: whatever the client accepts the server sent to it, and whatever a server in session with the client accepts the client sent |
| `Session.RequestDelivery` | cc/crypto/client_encryptor.cc:48-79 | after every run each request ever sent decrypts to exactly what was sent if and only if the client encrypts to this server and its key was the first usable one to arrive; otherwise it is rejected |
| `Session.ResponseDelivery` | cc/crypto/client_encryptor.cc:81-96 | the same for responses |
| `Session.FirstRequestOpensSession` | cc/crypto/server_encryptor.cc:40-63 | when the client's first request is the first to arrive, every request of the session decrypts in any order |
| `MicroRpc.FromU32` | micro_rpc/src/status.rs:104-128 | codes up to 16 are kept and all others become `Unknown` |
| `MicroRpc.StatusRoundTrip` | micro_rpc/src/lib.rs:62-72 | every status survives the wire, and a wire status survives if and only if its code is one of the seventeen |
| `MicroRpc.WrapperRoundTrip` | micro_rpc/src/lib.rs:74-98 | results survive the response wrapper, and it is never empty |
| `MicroRpc.GenerateService` | micro_rpc_build/src/lib.rs:114-173 | one dispatch arm per method, in order |
| `MicroRpc.GenerateServiceClient` | micro_rpc_build/src/lib.rs:177-206 | one stub per method, in order |
| `MicroRpc.Server.Invoke` | micro_rpc_build/src/lib.rs:118-160 | the reply is a wrapper from which every decoder gets back exactly the result of the one dispatched call, which also gives the new service state |
| `MicroRpc.ClientInvoke` | micro_rpc/src/lib.rs:114-143 | a client method over a server object is one remote call |
| `MicroRpc.ClientsAgreeUnlessEmptyWrapper` | micro_rpc/src/lib.rs:114-181 | the two clients read every reply alike, except if and only if it is a well-formed wrapper without content; the statuses and messages of every outcome |
| `MicroRpc.RemoteSimulatesDirect` | micro_rpc_build/src/lib.rs:114-257 | over every sequence of calls of methods that are the first with their id, and whatever the transport loses, clients of either kind give the results, statuses and service states of direct calls |
| `MicroRpc.UniqueIdsSimulate` | micro_rpc_build/src/lib.rs:114-257 | with unique ids that is every sequence of calls |
| `MicroRpc.ShadowedMethodDiverges` | micro_rpc_build/src/lib.rs:227-257 | the condition is exact: a method whose id an earlier one has is never reached, and a recording service tells the difference for every request |
| `MicroRpc.AnswersExactly` | micro_rpc_build/src/lib.rs:136-160 | whatever bytes arrive: the service is called once, and its answer returned, if they hold a known id and a body of its input type; each of the three other cases leaves it untouched and has its own status |
| `Jwt.ReportAttestationToken` | oak_attestation_gcp/src/jwt/verification.rs:193-248 | the loop from the end of the chain builds the nested report of `Report`, skipping certificates that do not decode |
| `Jwt.IntoCheckedToken` | oak_attestation_gcp/src/jwt/verification.rs:114-165 | the loop through the nested report returns the token exactly when every part of it is good |
| `Jwt.GoodReportIsPath` | oak_attestation_gcp/src/jwt/verification.rs:193-227 | the nested report is good if and only if every certificate decodes, is in force and was issued by the next, the last by the root |
| `Jwt.TokenAcceptedExactly` | oak_attestation_gcp/src/jwt/verification.rs:81-346 | a token is accepted if and only if it has the required claims, is in force, its chain is a certification path to the root and its first certificate signed it |
| `Jwt.VerifyAttestationToken` | oak_attestation_gcp/src/jwt/verification.rs:81-88 | the two loops together decide exactly that |
| `ConfidentialSpace.EndorsedExactly` | oak_attestation_gcp/src/policy.rs:108-148 | an image is accepted if and only if its digest parses and the reference value is skipped, lists it as SHA2-256, or is met by a verified endorsement whose subject it is |
| `ConfidentialSpace.PolicyAcceptsExactly` | oak_attestation_gcp/src/policy.rs:184-276 | generating and running the policy returns the bound key if and only if token, nonce and image are acceptable, and is an error otherwise |
| `ConfidentialSpace.AssertionAcceptsExactly` | oak_attestation_gcp/src/assertions.rs:105-193 | the assertion verifier accepts under the same condition, with a default endorsement in place of none |
| `ConfidentialSpace.VerifiersAgree` | oak_attestation_gcp/src/policy_generator.rs:33-78 | with the same reference values, time, token and endorsement, in the session's audience and with the bound key as asserted data, the generated policy accepts if and only if the assertion verifier does |
| `ConfidentialSpace.AgreementWithoutEndorsement` | oak_attestation_gcp/src/assertions.rs:79-108 | without an endorsement the policy accepts if and only if the assertion verifier does and the reference values need none |
| `ConfidentialSpace.SkipWithoutEndorsementParts` | oak_attestation_gcp/src/assertions.rs:79-108 | for skipped image values they do part ways, on every assertion whose token is good |
| `Amd.MirrorScalars` | oak_attestation_verification/src/amd.rs:153-163 | the big-endian value of each mirrored array is the little-endian value of the first 48 stored bytes |
| `Amd.ZeroExtension` | oak_attestation_verification/src/amd.rs:148-163 | those 48 bytes hold the whole stored value if and only if the padding is zero |
| `Amd.FindExtension` | oak_attestation_verification/src/amd.rs:63-86 | the value of the first extension with the identifier, and none exactly if no extension has it |
| `Amd.ComponentExactly` | oak_attestation_verification/src/amd.rs:90-114 | a component is the last byte of the last extension with its identifier, and zero if there is none |
| `Amd.ParseTcbVersion` | oak_attestation_verification/src/amd.rs:90-114 | each component is read under its own identifier; the panics are exactly those of empty values |
| `Amd.ChipId` | oak_attestation_verification/src/amd.rs:63-86 | ids of 8 or 64 bytes are padded with zeros to 64, all others and missing ones are errors |
| `Amd.VerifyAttestationReportSignature` | oak_attestation_verification/src/amd.rs:116-170 | a report is accepted if and only if chip id, TCB version and algorithm match and the signature verifies on the integers the report stores; it panics if and only if the chip id matches and an empty extension is read |

## Left out

- Cryptography, CBOR, COSE, protobuf, X.509 parsing, JWT parsing, OCI references and regular expressions: parameters or symbolic values, as listed above.
- Endorsement verification against a transparency log: one function of time, endorsement and reference value.
- Computing expected values from reference values and endorsements: the comparison starts from expected values.
- The `oak_session` handshake and attestation negotiation: only the message encryption of `cc/crypto` is modelled.
- Sockets, TLS, async runtimes, gRPC transports, launchers, explainers and command-line tools: input and output only.
- `EventLogAttester` of oak_attestation/src/lib.rs: it appends encoded events to a log and returns evidence with that log.
- Certificates.GeneratedCertificateCertifies: does not model a failing CBOR encoding of a certificate, because encodings are symbolic values; a name the claims builder refuses is modelled as the panic it is.
- `verify_software_rooted_dice_chain` and `verify_user_data_certificate`: they repeat steps of the chain verifier.
- The request half of the HTTP exchange: it formats one fixed request.
- The text of generated microRPC code: the model is what that code means, not its characters.
- Raw pointers that C++ code outside the holders misuses: programs are those in which released pointers are used as the holders' documentation demands.
- Ownership of `SigningKey`, `FfiAttester` and `CxxString` pointers: the Rust code that consumes them is not part of this model.
- Memory exhaustion below the largest allocation size: allocations of legal size succeed.
- Stage 0's construction of the first evidence: runs start from an attester with a root layer bound to its key, an empty event log and no layers.
- The zero padding of certificates in Restricted Kernel memory: certificates are symbolic values.
