# Verification of the MPC ceremony verifier

This project models the parts of the repository that decide whether a Groth16 setup ceremony was run correctly, and
proves what those decisions guarantee. `dafny verify dfyconfig.toml` checks all of it.

The ceremony is a chain of records. A signed definition names a coordinator, a release signer, auditors and a roster
of participants. In each of two phases participants contribute in a scheduled order; each accepted contribution
becomes a record linked by hash to the one before. A phase is closed, waits for a public randomness beacon whose round
was committed in advance, and is sealed; the seal of Phase 1 opens Phase 2. Afterwards an operational evidence bundle
(transfers, erasures, witnesses, relays, mirrors), audits, a release tree and a production decision are checked.

## How it is modelled

- `Preflight.dfy`, `Layout.dfy`, `Positions.dfy`, `Bits.dfy`: the binary preflight. `Layout` says what the bytes of an
  artifact are, field by field, without any scanner; `Positions` says it again by offset, without any list of fields. `Preflight.Scanner` is the scanner with its read-ahead buffer, counters and
  running hashes; a digest is represented by the bytes that were written to it, so "the digest covers the input" is an
  equation between byte strings.
- `Records.dfy`, `Definition.dfy`, `Chain.dfy`, `Acceptance.dfy`, `Lifecycle.dfy`: records, definition, acceptance
  chain, close, beacon and seal. Instants are integers (nanoseconds). The canonical hash is a function of the hashed
  domain and value; that it does not collide is the explicit hypothesis `CollisionFree` wherever it is needed.
- `Evidence.dfy`, `Custody.dfy`, `Witnesses.dfy`, `Publication.dfy`, `References.dfy`, `Bundle.dfy`: the operational
  evidence verifier over an evidence root, which is a map from names to documents. Signatures, digests of documents
  and drand verification are unknown functions.
- `Replay.dfy`: the replay engines, as folds over an unknown transition check.
- `PreparedSession.dfy`, `Progress.dfy`, `Readahead.dfy`: the browser prover's session ownership, its progress sink
  and its chunk read-ahead.
- `StrictJson.dfy`, `Checksums.dfy`, `BatchTranscript.dfy`, `BeaconChallenge.dfy`: the duplicate-key scanner, the
  checksum file, and the two hash framings.
- `Finalization.dfy`, `Release.dfy`, `Decision.dfy`: stored contribution evidence, the release tree and its audits,
  and the signed production decision.
- `Common.dfy`, `Order.dfy`: result types, machine integers, Go's string order and sorting by it.

Code that changes state is a class or a method with a loop, proved against a predicate or function that does not
mention the loop; pure checks are predicates, and lemmas say what follows from them.

Some of what is proved about the code as it is:

- The genesis id of an empty chain does not cover the phase, so two empty chains that differ only in phase share
  their head id (`Chains.EmptyHeadOmitsPhase`). The commitment theorems hold regardless, because the phase id does.
- `validateArtifactName` accepts a name with a newline. A checksum file can then be written that its own check
  refuses (`Checksums.NewlineInName`); `Checksums.WrittenIsAccepted` gives the exact condition under which it is accepted.
- `readaheadChunkURLs` is documented to return every chunk exactly once. It returns no chunk twice, but drops those
  whose path does not parse, and those that no section overlaps and that the last pass over [0, 2^62) does not
  overlap either; `Readahead.ListedIff` is the exact condition and `Readahead.UncoveredChunkIsDropped` an instance.
- The declared domain limit 2^32 never binds: the 16 GiB artifact limit refuses everything above 2^25
  (`Preflight.AcceptedDomains`).

## Model

| member | source | states |
|---|---|---|
| Bits.ClearLowestBitTest | internal/mpcceremony/preflight.go:101-106 | `n & (n-1)` is zero on exactly the powers of two |
| Bits.TopThreeBits | internal/mpcceremony/preflight.go:427-438 | the mask 0xe0 keeps precisely a byte's top three bits |
| Layout.CanonicalHeadRange | internal/mpcceremony/preflight.go:427-438 | the three accepted flag patterns of a point are exactly the byte range [0x80, 0xe0) |
| Layout.ClosedForms | internal/mpcceremony/preflight.go:108-186 | the widths of the three layouts, summed field by field, are the documented closed forms |
| Preflight.ExpectedPhase2Size | internal/mpcceremony/preflight.go:147-186 | the accumulating size computation yields the width of the Phase 2 layout, is refused only for inconsistent counts or the artifact limit, and never for overflow |
| Preflight.ExpectedSizesAreWidths | internal/mpcceremony/preflight.go:109-144 | the commons and Phase 1 sizes are the widths of their layouts and no overflow branch is reachable |
| Preflight.AcceptedDomains | internal/mpcceremony/preflight.go:74-106 | a shape is accepted exactly for N = 2^k, 1 <= k <= 25, although the bit test alone admits k up to 32 |
| Preflight.ScanAppend | internal/mpcceremony/preflight.go:383-493 | reading a concatenation of layouts is reading one and then the other from where the first stopped |
| Preflight.ScanReadsLayout | internal/mpcceremony/preflight.go:383-493 | a scan with enough room succeeds exactly on the layout's bytes, consumes exactly its width, and never meets the length guard |
| Preflight.Scanner.Fill | internal/mpcceremony/preflight.go:365-381 | the underlying reader delivers some bytes, which both hashes see before anyone consumes them |
| Preflight.Scanner.ReadBuffered | internal/mpcceremony/preflight.go:383-393 | a full read returns the next bytes of the stream or what is left of it with the reason, and keeps the hashed prefix ahead of the consumed one |
| Preflight.Scanner.ReadFull | internal/mpcceremony/preflight.go:383-393 | the exact outcome of one read: short read, guard, or the next bytes with the position advanced |
| Preflight.Scanner.ReadField | internal/mpcceremony/preflight.go:395-438 | one field is accepted exactly when it is the layout's next field at this position |
| Preflight.Scanner.Points | internal/mpcceremony/preflight.go:440-456 | the point loop reads exactly the given number of canonical points |
| Preflight.Scanner.VectorG1Of | internal/mpcceremony/preflight.go:458-470 | a length-prefixed vector must carry exactly the expected length and points |
| Preflight.Scanner.UpdateProof | internal/mpcceremony/preflight.go:472-480 | an update proof is its two points |
| Preflight.Scanner.CommonsBodyOf | internal/mpcceremony/preflight.go:284-301 | the commons body is read exactly as laid out |
| Preflight.Scanner.Challenge | internal/mpcceremony/preflight.go:482-495 | the challenge must have the expected length, and its bytes are returned |
| Preflight.Scanner.Finish | internal/mpcceremony/preflight.go:497-517 | end of file is required right after the expected bytes, and then both digests cover the whole stream |
| Preflight.PreflightCommons | internal/mpcceremony/preflight.go:261-282 | accepts exactly the inputs that have, at their fixed offsets, the domain word and canonical points of every group and nothing after them; digest, size and challenge are of the whole input; extra bytes are trailing data; no length guard or overflow is ever the reason |
| Preflight.PreflightPhase1 | internal/mpcceremony/preflight.go:224-258 | the same for Phase 1: three update proofs, the domain word at byte 432, the commons body at 440, and the challenge length after it |
| Preflight.PreflightPhase2 | internal/mpcceremony/preflight.go:305-355 | the same for Phase 2 and every shape that is not refused: commitments, Delta, PKK, Z, Delta in G2, SigmaCKK, sigmas, update proofs and challenge, each at its offset |
| Preflight.AcceptedPhase2Shapes | internal/mpcceremony/preflight.go:90-186 | a Phase 2 shape is accepted exactly for at most 255 commitments with one SigmaCKK length each and a total of at most 16 GiB |
| Positions.CommonsPositions | internal/mpcceremony/preflight.go:284-301 | the commons layout is, byte for byte: the domain, Beta in G2, then Tau in G1, Tau in G2, Beta-Tau and Alpha-Tau, each group at its offset |
| Positions.Phase1Positions | internal/mpcceremony/preflight.go:224-258 | the same for the Phase 1 layout |
| Positions.Phase2Positions | internal/mpcceremony/preflight.go:305-355 | the same for the Phase 2 layout, with the PKK length at byte 50 and every later group where the lengths before it put it |
| Definitions.Admit | internal/mpcceremony/definition.go:111-263 | the three identity maps find a clash exactly when two people share an id, a key id or a fingerprint |
| Definitions.ValidatePolicy | internal/mpcceremony/model.go:177-198 | a policy is accepted exactly when its participants are enrolled, distinct and within the limits |
| Definitions.PolicyStates | internal/mpcceremony/model.go:177-198 | a phase of a valid definition schedules different people, all of them on the roster |
| Definitions.ValidateBody | internal/mpcceremony/definition.go:111-263 | the validation loops accept exactly the valid definitions, with the extra rules of production mode |
| Definitions.DefinitionStates | internal/mpcceremony/definition.go:111-263 | in a valid definition any two of coordinator, release signer, auditors and participants differ in id, key id and public key, and the numbers of people, minimums and lead time have their limits |
| Definitions.LookupFinds | internal/mpcceremony/definition.go:276-283 | among distinct people a lookup by anyone's id finds that person |
| Definitions.RoleAt | internal/mpcceremony/operational.go:969-987 | the role returned is that of the first actor with the id, and in a valid definition of the only one |
| Definitions.CeremonyIdCommits | internal/mpcceremony/definition.go:89-95 | without hash collisions a ceremony id determines the whole definition |
| Chains.ValidateChain | internal/mpcceremony/chain.go:159-214 | accepts exactly the linked chains; a refused record is the first at which a prefix stops being valid |
| Chains.ValidIffContinuous | internal/mpcceremony/chain.go:159-214 | a chain is valid exactly when record 0 starts from the genesis payload, record i from the output of record i-1, and ids, indices, times and participants continue likewise |
| Chains.PrefixValid | internal/mpcceremony/chain.go:159-214 | every prefix of a valid chain is valid |
| Chains.ExtendValid | internal/mpcceremony/chain.go:216-227 | a chain can be extended exactly when it is valid, not full, and the record links to its head |
| Chains.ChainOrder | internal/mpcceremony/chain.go:159-214 | acceptance times grow and participants differ between any two records, not only neighbours |
| Chains.AcceptedChain.Append | internal/mpcceremony/chain.go:216-227 | appends exactly when the longer chain is valid, and then the new record starts from the last output, or from the genesis; otherwise leaves the chain unchanged |
| Chains.ValidIffReachable | internal/mpcceremony/chain.go:147-227 | the valid chains are exactly those some sequence of appends, failed ones included, builds from a new chain |
| Chains.HeadCommits | internal/mpcceremony/chain.go:229-237 | without collisions a head record id determines the whole chain |
| Chains.EmptyHeadOmitsPhase | internal/mpcceremony/chain.go:382-398 | the genesis id leaves the phase of an empty chain open |
| Chains.PrefixValidAgainstDefinition | internal/mpcceremony/chain.go:260-299 | prefixes of a chain that fits its definition fit it too |
| Acceptances.AcceptableIsAppendable | internal/mpcceremony/chain.go:260-380 | an acceptable record extends the chain to one that fits the definition exactly when it carries the chain's identity and names the next scheduled participant |
| Acceptances.AcceptanceStates | internal/mpcceremony/chain.go:301-380 | an acceptable record starts from the last output of its chain; record, attestation and erasure agree on payloads, ids, index and participant, and each carries the hash of itself |
| Acceptances.AcceptanceTimes | internal/mpcceremony/chain.go:301-380 | creation, contribution, destruction and acceptance are strictly ordered, after the acceptance before |
| Acceptances.StoredStepWasAppended | internal/mpcceremony/finalize.go:1630-1698 | a stored step that is acceptable on its rebuilt prefix was the append that made the next prefix |
| Lifecycle.RoundSchedule | internal/mpcceremony/chain.go:773-785 | a round is refused exactly when its time leaves int64, no wrap happens otherwise, and later rounds are later |
| Lifecycle.CloseCommits | internal/mpcceremony/chain.go:516-591 | a close id determines the close record and the whole chain it closes |
| Lifecycle.CloseStates | internal/mpcceremony/chain.go:516-591 | a valid close names the last record of the chain, its output and its participants in order |
| Lifecycle.BeaconStates | internal/mpcceremony/chain.go:594-769 | a valid beacon is of the committed round, under the policy of the definition |
| Lifecycle.Phase1SealCommits | internal/mpcceremony/chain.go:916-937 | the Phase 1 seal id determines the seal, beacon, close and chain of Phase 1 |
| Lifecycle.SealStates | internal/mpcceremony/chain.go:594-937 | a seal chain runs from the last output through close and beacon, with the challenge derived from just these, to the seal |
| Lifecycle.Phase2HeadCommits | internal/mpcceremony/finalize.go:1086-1135 | two accepted replays with the same Phase 2 head id agree on the definition, all of Phase 1 and the Phase 2 chain |
| Lifecycle.ReplayStates | internal/mpcceremony/finalize.go:1086-1135 | a valid replay starts Phase 1 from the genesis of the definition and Phase 2 under the seal of Phase 1 |
| Lifecycle.Phase2BeaconCommits | internal/mpcceremony/finalize.go:1086-1135 | two accepted replays with the same Phase 2 beacon id are equal |
| Lifecycle.PhaseSchedule | internal/mpcceremony/chain.go:516-769 | acceptances, close, signed lead, scheduled round and publication follow in that order, by the scheduled participants |
| Lifecycle.ProductionPhaseIsComplete | internal/mpcceremony/chain.go:516-591 | a closed production phase has one contribution of every scheduled participant, in order |
| Finalization.ValidateContributionEvidence | internal/mpcceremony/finalize.go:1630-1698 | the loop accepts exactly when every record's five artifacts open, match, are signed by the enrolled participant and were acceptable on their prefix |
| Finalization.StepStates | internal/mpcceremony/finalize.go:1630-1698 | both documents of a step are signed by the enrolled participant of the record, and the stored verification is exactly that record |
| Finalization.EvidenceFixesSchedule | internal/mpcceremony/finalize.go:1630-1698 | accepted evidence forces the schedule of every record but the last; the whole chain fits the definition exactly when the last is scheduled too |
| Finalization.EvidenceChronology | internal/mpcceremony/finalize.go:1630-1698 | each contribution and its erasure lie strictly after every earlier acceptance and before their own |
| Finalization.SealOutputByDigest | internal/mpcceremony/finalize.go:1543-1557 | finds an output exactly when one and only one has the digest |
| Finalization.PublicInputScalar | internal/mpcceremony/finalize.go:1376-1383 | the in-place byte reversal reads the digest little-endian; the scalar is that value reduced below the field order |
| References.SortAndCompact | internal/mpcceremony/operational_bundle.go:325-349 | the sort and in-place compaction fails exactly when two different references share a name, and otherwise leaves a strictly ordered list of the same references |
| Evidence.ValidateRelay | internal/mpcceremony/operational.go:372-445 | the observation loop accepts exactly ordered, pairwise independent observations with one randomness, none after the record |
| Witnesses.VerifyEnrollments | internal/mpcceremony/operational_bundle.go:692-760 | the enrollment maps accept exactly when all records open, are separate, and every actor is enrolled as itself |
| Witnesses.EnrolledRecord | internal/mpcceremony/operational_bundle.go:692-760 | whoever the map lists was enrolled by a record bound to the definition |
| Witnesses.EnrollmentStates | internal/mpcceremony/operational_bundle.go:692-760 | an enrollment is signed with the enrolled key, for this definition and roster, and pins its disclosure; an actor of the ceremony is enrolled as itself |
| Witnesses.OutsidersAreIndependent | internal/mpcceremony/operational.go:907-950 | witnesses and mirror operators overlap neither the ceremony's actors nor each other |
| Publication.VerifyQuorum | internal/mpcceremony/operational.go:734-784 | a quorum holds exactly when all receipts open, are by distinct people and are about one closure |
| Publication.QuorumStates | internal/mpcceremony/operational.go:734-784 | any two receipts of a quorum are by different observers with different keys, about one closure and one round |
| Publication.MatchResponses | internal/mpcceremony/operational_bundle.go:636-667 | success is exactly equal counts with every reference read and named; then references and relays are in bijection and the duplicate branch is unreachable |
| Publication.ValidateRelays | internal/mpcceremony/operational.go:834-883 | accepts exactly when each relay's response verifies to its randomness after the round; with all responses present the missing branch is unreachable |
| Publication.VerifyRelays | internal/mpcceremony/operational_bundle.go:610-675 | both loops together decide a condition without any map, and take neither the duplicate nor the missing branch |
| Publication.RelaysAgree | internal/mpcceremony/operational.go:834-883 | all responses of verified relay evidence verify to one common randomness |
| Custody.VerifyMirrors | internal/mpcceremony/operational_bundle.go:1042-1091 | the mirror loop accepts exactly when all receipts open and are by distinct people |
| Custody.VerifyHead | internal/mpcceremony/operational_bundle.go:815-1088 | one head is accepted exactly when its ids, its dossier with the scheduled participant, their coherence and its mirrors hold |
| Custody.VerifyAcceptedHeads | internal/mpcceremony/operational_bundle.go:797-1091 | the loop over heads accepts exactly when every head's dossier and mirrors hold for its record, and returns exactly the documents these heads name: prefix, attestation, erasure, verification, handoffs, receipts and every mirror receipt, with their signatures |
| Custody.HeadRefsHold | internal/mpcceremony/operational_bundle.go:1042-1091 | the references of one head are exactly those documents and no other |
| Custody.HeadStates | internal/mpcceremony/operational_bundle.go:815-1041 | who signed the documents of a head, which files went out and came back, and that each receipt is by the other side and repeats its handoff |
| Custody.TransfersAreSigned | internal/mpcceremony/operational_bundle.go:905-1020 | the coordinator signed the outbound handoff and the return receipt, the scheduled participant the other two |
| Custody.MirrorStates | internal/mpcceremony/operational_bundle.go:1042-1088 | a mirror receipt is signed by an enrolled mirror operator, for this head and its files, after its acceptance |
| Custody.HeadTimesIncrease | internal/mpcceremony/operational_bundle.go:797-1041 | the seven events of a verified head are strictly ordered, after the head before |
| Custody.TimelineIncreases | internal/mpcceremony/operational_bundle.go:797-1041 | one strict timeline runs through all heads of a phase |
| Bundles.LatestTimestamp | internal/mpcceremony/operational_bundle.go:358-472 | yields the greatest instant of all referenced records, or fails when one is unreadable or none is later than the zero time |
| Bundles.VerifyPhase | internal/mpcceremony/operational_bundle.go:474-675 | the phase check decides its declarative condition and returns exactly the documents the phase names, in itself, in its chain and in its heads |
| Bundles.VerifyBundle | internal/mpcceremony/operational_bundle.go:266-356 | accepts exactly the bundles whose parts hold and whose references do not equivocate, and returns once each, in name order, exactly the documents named by its enrollments with their disclosures, its governance records with their evidence, and both phases |
| Bundles.VerifyOperationalEvidenceBundle | internal/mpcceremony/operational_bundle.go:243-356 | the same from the exact signed bytes on: the coordinator key signed them, they encode a well-formed bundle, and that bundle verifies |
| Bundles.BundleShape | internal/mpcceremony/operational_bundle.go:19-181 | a well-formed bundle in numbers: enrollments, heads, mirrors, quorum and responses within their limits, names apart and in strict order, heads numbered from 1 |
| Bundles.AllRefsHold | internal/mpcceremony/operational_bundle.go:328-349 | the gathered references are exactly the documents the bundle names |
| Bundles.PhaseStates | internal/mpcceremony/operational_bundle.go:474-675 | chain, close and relay evidence of a verified phase are signed by the trusted coordinator, name one phase and ceremony, and carry the pinned digests |
| Bundles.GovernanceStates | internal/mpcceremony/operational_bundle.go:762-795 | a governance record is signed by an actor of the ceremony under that actor's key, and all its evidence is present |
| Bundles.BundleStates | internal/mpcceremony/operational_bundle.go:266-300 | a verified bundle names the coordinator of the definition and two different rounds, and every actor is enrolled as itself |
| Bundles.SightingStates | internal/mpcceremony/operational_bundle.go:564-608 | a counted witness is enrolled as such, signed its receipt, saw this very close, and shares no id, key id or public key with any actor of the ceremony |
| Bundles.RelayStates | internal/mpcceremony/operational_bundle.go:610-675 | three or more independent relays, each with its raw response among the references, verifying for the committed round to one common randomness |
| Bundles.CustodyChronology | internal/mpcceremony/operational_bundle.go:1021-1041 | the timeline of all heads ends strictly before the close |
| Bundles.PhaseChronology | internal/mpcceremony/operational_bundle.go:474-675 | over the chain, close, head evidence, witness receipts and relay evidence that the phase itself references: one chronology from creation through all heads, close, sightings with their lead, scheduled round, retrievals and record to assembly |
| Bundles.BundleChronology | internal/mpcceremony/operational_bundle.go:243-356 | both phases of a verified bundle have such a chronology, over their own documents and the bundle's own enrollments, and each of its dated records, named one by one, precedes the assembly |
| Bundles.AgendaIsEverything | internal/mpcceremony/operational_bundle.go:358-472 | bounding the instants collected is bounding every enrollment, governance record, acceptance, close, handoff, receipt, mirror, sighting and retrieval of the bundle |
| Bundles.WitnessesAreIndependent | internal/mpcceremony/operational_bundle.go:564-608 | at least two different witnesses, none a ceremony actor, and none the operator behind any head's mirror receipt, who is no ceremony actor either |
| Bundles.HeadMirror | internal/mpcceremony/operational_bundle.go:1042-1088 | every mirror receipt of a verified head opens, and its operator is an enrolled mirror operator |
| Replay.DerivePhase2Shape | internal/mpcceremony/phase2.go:49-103 | derives a shape exactly when the lengths are consistent, representable and within the limit, and that shape is the lengths of the state, field by field |
| Replay.ReplayPhase2 | internal/mpcceremony/phase2.go:218-274 | the replay loop is the fold of one-step checks, with the same error at the same ordinal |
| Replay.ReplayIsFold2 | internal/mpcceremony/phase2.go:218-290 | one more contribution: its exact condition, and the check against genesis agrees with the check against the head |
| Replay.ReplayIsEdgewise2 | internal/mpcceremony/phase2.go:218-290 | a replay of any length succeeds exactly when the genesis is good and each archive is an accepted transition from the one before it, and ends in the last archive's state |
| Replay.IncrementalIsFull2 | internal/mpcceremony/workflow.go:1012-1049 | accepting each candidate against its archived predecessor alone agrees with full replay, when reading an archive back gives the archived state |
| Replay.ReplayKeepsStructure | internal/mpcceremony/phase2.go:325-351 | every replayed state keeps the genesis shape up to its challenge |
| Replay.ReplayKeepsLengths | internal/mpcceremony/phase2.go:218-351 | sigmas, SigmaCKK, PKK and Z of every replayed state are as many as in the genesis, and each contribution has a 32-byte challenge |
| Replay.TransitionStates2 | internal/mpcceremony/phase2.go:276-351 | an accepted transition keeps each of these lengths and passes the library's check |
| Replay.ReplayIsLocal2 | internal/mpcceremony/phase2.go:107-121 | a replay depends only on the contributions it was asked to replay |
| Replay.ContributePhase2 | internal/mpcceremony/phase2.go:131-161 | a contribution handed out is an accepted transition from the replayed head |
| Replay.ContributionReplays2 | internal/mpcceremony/phase2.go:126-161 | such a contribution, archived, is accepted by the next full replay |
| Replay.ReplayPhase1 | internal/mpcceremony/phase1.go:145-182 | the Phase 1 loop is the fold of its one-step checks |
| Replay.ReplayIsFold1 | internal/mpcceremony/phase1.go:145-205 | the Phase 1 fold law, and the trace of all replayed states behind a success, each the copy of its archive |
| Replay.ReplayIsEdgewise1 | internal/mpcceremony/phase1.go:145-205 | a Phase 1 replay succeeds exactly when the size is admissible and each archive is an accepted transition from the one before it |
| Replay.IncrementalIsFull1 | internal/mpcceremony/workflow.go:997-1023 | in Phase 1 too incremental acceptance agrees with full replay |
| PreparedSessions.Prover.ClosePrepared | cmd/wasm-prover/main_js.go:171-183 | closes what the session owned, once, and leaves no session |
| PreparedSessions.Prover.PreflightAssets | cmd/wasm-prover/main_js.go:403-465 | every outcome keeps single ownership; it succeeds exactly when request, artifacts and system are in order, and then leaves a session for the key of this request; a failure leaves none |
| PreparedSessions.Prover.ProveDestination | cmd/wasm-prover/main_js.go:467-774 | a session is reused exactly when it was prepared for the key of this request and is closed otherwise; every attempt uses artifacts, constraint system and engine of that key; the call succeeds exactly when all it needs goes well |
| PreparedSessions.Prover.ProveOnSession | cmd/wasm-prover/main_js.go:626-705 | the first attempt runs on the engine and the system of the session; the engine installed for the process is the same before and after |
| PreparedSessions.Prover.ProveOnOwn | cmd/wasm-prover/main_js.go:626-705 | without a session the attempts run on an engine opened and closed by this call, and no engine is closed while installed |
| PreparedSessions.Prover.ConsumingAttempts | cmd/wasm-prover/main_js.go:657-706 | the first attempt is given the system at hand and the retry one loaded since; no system is ever given twice |
| PreparedSessions.Prover.Run | cmd/wasm-prover/main_js.go:403-774 | through any sequence of calls each open bundle and engine has one owner, everything else was closed exactly once, the systems given away are pairwise distinct, and the engine installed before is installed after and open |
| Progress.Sink.Report | cmd/wasm-prover/main_js.go:1271-1315 | the reported fraction never falls, is the share of all expected work that the recorded calls add up to, and is at the end of its stretch once every expected call is complete |
| Progress.RecordedUpdate | cmd/wasm-prover/main_js.go:1289-1294 | recording a call again replaces what it contributed |
| Progress.CompleteCoversTotal | cmd/wasm-prover/main_js.go:1260-1300 | once every expected call is complete the recorded amounts cover the whole expected work, whatever else was recorded |
| Readahead.SortedNames | cmd/wasm-prover/readahead_js.go:63-73 | each section once, ordered by rank and offset |
| Readahead.DispatchEnds | cmd/wasm-prover/readahead_js.go:27-50 | commitment bases are dispatched before all other sections, Z after all other known ones |
| Readahead.DispatchOrder | cmd/wasm-prover/readahead_js.go:27-50 | the order of every two kinds of section: commitment bases, their sigma bases, G2B, A, B, K, Z, the rest; within a kind by offset |
| Readahead.OverlapIsSharedByte | cmd/wasm-prover/readahead_js.go:77-95 | a chunk overlaps a range, sums within 2^63, exactly when some byte lies in both |
| Readahead.ChunkUrls | cmd/wasm-prover/readahead_js.go:54-97 | the URLs are those of the needed chunks that parse, in order of the first pass that needs them and then of index |
| Readahead.OrderIsUnique | cmd/wasm-prover/readahead_js.go:75-96 | that order leaves one possible list, without repetition |
| Readahead.ListedIff | cmd/wasm-prover/readahead_js.go:77-95 | a chunk is listed exactly when its path parses and a section or the last pass overlaps it, with wrap-around sums |
| Readahead.UncoveredChunkIsDropped | cmd/wasm-prover/readahead_js.go:52-97 | a chunk from 2^62 on that no section covers is left out although its path parses |
| Readahead.InRangeIsListed | cmd/wasm-prover/readahead_js.go:94-95 | chunks of positive size inside the first 2^62 bytes are always listed |
| Readahead.OutsidersComeLast | cmd/wasm-prover/readahead_js.go:90-95 | chunks outside all sections come after all others |
| StrictJson.Decoder.ScanValue | internal/mpcceremony/model.go:448-501 | the recursive scan terminates, and consumes and decides what the token grammar says, with the same failure |
| StrictJson.RejectDuplicateKeysAndTrailing | internal/mpcceremony/model.go:433-446 | one value, then the end of input |
| StrictJson.ScanOfEncoded | internal/mpcceremony/model.go:448-501 | over the tokens of any value, whatever follows, the scan consumes exactly them if no object at any depth repeats a name, and otherwise reports a duplicate |
| StrictJson.AcceptedValue | internal/mpcceremony/model.go:448-501 | whatever the scan accepts is the tokens of such a value |
| StrictJson.DocumentAccepts | internal/mpcceremony/model.go:433-501 | the check accepts exactly the token streams of one value without repeated names |
| StrictJson.WellFormedDocument | internal/mpcceremony/model.go:433-446 | for well-formed text a refusal means a repeated name or a trailing token |
| Checksums.WriteChecksums | internal/mpcceremony/finalize.go:1913-1932 | prints one line per name in order, and fails exactly when an artifact cannot be read |
| Checksums.VerifyChecksumsExact | internal/mpcceremony/audit.go:1021-1071 | accepts exactly one good line per expected name, in order |
| Checksums.AcceptsPrintedOnly | internal/mpcceremony/audit.go:1021-1071 | the check accepts the printed text, with or without its final newline, and no other text, and nothing at all for names it cannot check |
| Checksums.PrintedPositions | internal/mpcceremony/finalize.go:1913-1932 | line i of the printed text is the hash of name i, two spaces, and the name |
| Checksums.WrittenIsAccepted | internal/mpcceremony/finalize.go:1913-1932 | what was written is accepted exactly when there are names, all distinct, on one line, none the file's own |
| Checksums.NewlineInName | internal/mpcceremony/model.go:543-551 | the name check accepts a name with a newline, and a file under such a name is printed and then refused |
| BatchTranscripts.BuildV2 | internal/batchtranscript/batchtranscript.go:32-59 | succeeds exactly on valid batches with exactly the reserved length, and otherwise reports the first fault |
| BatchTranscripts.ReadOfTranscript | internal/batchtranscript/batchtranscript.go:32-59 | a reader that goes by the big-endian count recovers key hash, proofs and digests |
| BatchTranscripts.TranscriptPositions | internal/batchtranscript/batchtranscript.go:32-59 | domain text, key hash, big-endian count and the proof and digest of every entry stand at their offsets |
| BatchTranscripts.TranscriptOfRead | internal/batchtranscript/batchtranscript.go:32-59 | whatever that reader takes apart is the transcript of what it read |
| BatchTranscripts.TranscriptIsInjective | internal/batchtranscript/batchtranscript.go:29-31 | different batches have different transcripts |
| BatchTranscripts.Challenge | internal/batchtranscript/batchtranscript.go:77-84 | the challenge lies in [1, order-1] and is the digest's residue plus one |
| BatchTranscripts.MergeChallengeV2 | internal/batchtranscript/batchtranscript.go:67-75 | the same for the merge challenge over digest and suffix |
| BatchTranscripts.MergeInputIsNoTranscript | internal/batchtranscript/batchtranscript.go:67-75 | a merge challenge never hashes the input of a batch challenge |
| BeaconChallenges.DeriveBeaconChallenge | internal/mpcceremony/chain.go:790-825 | hashes the framed inputs exactly for the pinned network, a positive round and 32 bytes of randomness |
| BeaconChallenges.FramedPositions | internal/mpcceremony/chain.go:787-825 | the framed input has domain, close id, provider, network, round and randomness at their offsets, each after its length |
| BeaconChallenges.FieldIsSelfDelimiting | internal/mpcceremony/chain.go:820-825 | a length-prefixed field ends where it says, whatever follows |
| BeaconChallenges.FramingIsInjective | internal/mpcceremony/chain.go:787-818 | the framing makes every input tuple unambiguous |
| BeaconChallenges.ChallengeCommits | internal/mpcceremony/chain.go:787-818 | without collisions a challenge determines close id, round and randomness |
| Releases.AncestorsArePrefixes | internal/mpcceremony/audit.go:1500-1502 | the loop to the root collects exactly the prefixes that end before a slash |
| Releases.VerifyReleaseTreeExact | internal/mpcceremony/audit.go:1486-1543 | accepts exactly when the names are valid and distinct and the walk meets those files and their directories, each once, and nothing else |
| Releases.VerifyPassingAudits | internal/mpcceremony/audit.go:862-956 | accepts exactly two or more files that open as passing audits of this candidate by different auditors under different keys, and returns their references and the latest time |
| Releases.VerifyAudit | internal/mpcceremony/audit.go:890-933 | one file opens exactly when its enrolled auditor signed it, it passes without findings, binds the candidate and its outputs, and follows it |
| Releases.AuditStates | internal/mpcceremony/audit.go:862-956 | each of the audits accepted together passed without findings, is of this ceremony, candidate and outputs, and is signed by an enrolled auditor |
| Releases.AuditorsAreUnrelated | internal/mpcceremony/audit.go:903-944 | the signers of two accepted audits share no id, key id or public key |
| Releases.ReleaseFollowsAudits | internal/mpcceremony/audit.go:958-963 | a release after that time is after every audit and after the candidate |
| Decisions.ValidateGates | internal/mpcceremony/decision.go:531-557 | fourteen gates in order; GO exactly when all pass |
| Decisions.GatesAreAll | internal/mpcceremony/decision.go:46-84 | every gate there is is answered, once and in its own place |
| Decisions.ValidateCoherence | internal/mpcceremony/decision.go:1265-1279 | the two maps find a conflict exactly when two different references share a name or a URI |
| Decisions.UniqueLocated | internal/mpcceremony/decision.go:1310-1323 | one reference per URI, in URI order |
| Decisions.UniqueKeepsCoherent | internal/mpcceremony/decision.go:1265-1323 | for coherent evidence that list loses no reference and repeats no name |
| Decisions.AllLocatedHold | internal/mpcceremony/decision.go:1281-1308 | the references checked are exactly the release, operational, audit, external, gate and other evidence the decision pins |
| Decisions.VerifyArtifacts | internal/mpcceremony/decision.go:741-755 | hashing the unique references checks every reference of the decision |
| Decisions.ValidateDecision | internal/mpcceremony/decision.go:464-561 | the decision's cross-field rules are decided exactly |
| Decisions.ValidateBinding | internal/mpcceremony/decision.go:774-808 | auditors are enrolled with their keys and external auditors are outsiders |
| Decisions.DecisionBindsPeople | internal/mpcceremony/decision.go:774-808 | both auditors are enrolled with those keys and different, and the external auditors' keys are those of nobody in the ceremony |
| Decisions.KeyIsInjective | internal/mpcceremony/decision.go:690-694 | the key text determines role and signer |
| Decisions.RequiredAreDistinct | internal/mpcceremony/decision.go:1256-1263 | the four required signers are four, because the audits are ordered by auditor |
| Decisions.VerifySignatures | internal/mpcceremony/decision.go:670-722 | accepts exactly authentic signatures of different admissible signers, who for a GO are exactly the required ones, and returns them sorted |
| Decisions.SignersAreUnrelated | internal/mpcceremony/decision.go:1220-1254 | two signatures of one decision never share an id, a key or a fingerprint |
| Decisions.GoIsUnanimous | internal/mpcceremony/decision.go:659-723 | a verified GO has every gate passed and exactly four signatures, by the required signers, under unrelated keys |
| Decisions.DecisionStates | internal/mpcceremony/decision.go:464-723 | a verified decision is a GO exactly when every gate passed; no two files it pins share a name or URI; every signature is by another signer, who holds that role |
| Decisions.VerifyProductionDecision | internal/mpcceremony/decision.go:659-772 | the whole verification decides its declarative condition, and every file the decision pins, wherever it does so, is present with its digest |

## Left out

- Cryptography: gnark, drand, Ed25519, SHA-256 and BLAKE2b are unknown functions and predicates; what is assumed of them is in the hypotheses of each lemma.
- File handling: symbolic-link checks, fsync, staging directories, no-replace publication and file size limits; an evidence root is a map from names to documents.
- JSON text: encoding, decoding and the canonical-encoding check; records are values and JSON is a stream of tokens, of which `Malformed` stands for text that is no token.
- RFC 3339 text and time zones: an instant is an integer, so a timestamp that does not parse is part of the single-field formats.
- Single-field formats (schemas, ids, hex lengths, fixed strings, URIs, trimming): folded into one unknown well-formedness predicate for each record.
- Error texts: the record validators say accept or refuse; error kinds are kept where control flow depends on them.
- Bundles.VerifyOperationalEvidenceBundle: the decoding of the bundle is an unknown function, the coordinator key stands for itself whatever its length, and the two close records are arguments, as in the source, which checks their digests and signatures.
- Preflight.PreflightPhase2: the nil reader check, and reads that deliver no byte and no error, are not modelled.
- Preflight.Scanner.Fill: of the standard buffered reader only this is kept: it refills when empty with any positive number of bytes up to its buffer size.
- Acceptances.AcceptableIsAppendable: the number of environment disclosures and other contents of an attestation are part of its format predicate.
- Replay.ReplayPhase2: sealing with the beacon and gnark's own mutation of states are not part of this model; a state is its slice lengths, its challenge and unknown content.
- PreparedSessions.Prover.ProveDestination: the lock around a call and the fetch logic; which of the possible outcomes each step has is a parameter, and every combination is covered. Trace and progress sinks are left out.
- Progress.Sink.Report: fractions are real numbers, so floating-point rounding is not modelled, nor is overflow of the summed totals or the displayed percentage text.
- Readahead.ChunkUrls: URL parsing and resolution are unknown functions; Go's unstable sort is any order that satisfies the comparison.
- Checksums.VerifyChecksumsExact: a text is a sequence of bytes written as characters, and an artifact is the hash its name resolves to, if it resolves.
- BeaconChallenges.FramingIsInjective: is stated for fields shorter than 2^32 bytes, the range of the length prefix; the pinned constants and the checked formats are far below it.
- Releases.VerifyReleaseTreeExact: the walk is the list of entries it meets; an I/O error during the walk is not modelled.
- Releases.VerifyAudit: decoding with its formats, digests and the replay root of the candidate are unknown functions or given values.
- Checksums.NewlineInName: that path cleaning leaves a name alone is stated by the name's components, not derived from the cleaning algorithm; UTF-8 validity is known only of ASCII text.
- Replay.IncrementalIsFull2: that a state written to an archive is read back unchanged is a hypothesis about serialization, which is foreign code.
- Decisions.ValidateDecision: the nested evidence records' own formats, including the ordering of the release artifacts, are part of the format predicate.
- Decisions.VerifyProductionDecision: what the release, operational, audit and external audit files themselves must contain is one unknown condition; that every one of them is present with its pinned digest is proved.
- Command-line parsing, HTTP handlers, desktop and web front ends, fixture generation, benchmarks and the local single-actor setup: sequences of calls without deeper invariants.
