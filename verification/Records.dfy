/**
 The signed records of a ceremony as values. Instants are nanoseconds, ids and hashes are strings,
 and a canonical hash is a function of the hashed domain and value.
 */
module Records {
  import opened Common

  type Id = string
  type Instant = int

  const MAX_PARTICIPANTS: nat := 20
  const SECOND: int := 1_000_000_000

  /** The zero time of the clock type: 1 January of year 1. */
  const ZERO_TIME: Instant := -62_135_596_800 * SECOND

  /** The greatest of the instants, or the zero time if none is later than that. */
  ghost predicate IsLatest(times: iset<Instant>, latest: Instant) {
    && latest >= ZERO_TIME
    && (forall at | at in times :: at <= latest)
    && (latest > ZERO_TIME ==> latest in times)
  }

  datatype Digest = Digest(sha256: Id, blake2b256: Id, size: int)
  datatype ArtifactRef = ArtifactRef(name: string, digest: Digest)
  datatype Identity = Identity(id: Id, displayName: string, keyId: Id, publicKey: string, fingerprint: Id)

  datatype Phase = Phase1 | Phase2
  datatype Mode = Rehearsal | Production

  datatype PhasePolicy = PhasePolicy(participants: seq<Id>, minimum: U8)
  datatype BeaconPolicy = BeaconPolicy(provider: string, network: string, minimumLeadSeconds: U32)
  datatype Software = Software(
    toolBinary: Digest, sourceCommit: string, gnarkVersion: string, gnarkCryptoVersion: string, drandVersion: string)

  datatype Definition = Definition(
    ceremonyId: Id, mode: Mode, createdAt: Instant, software: Software, r1cs: ArtifactRef,
    coordinator: Identity, releaseSigner: Identity, auditors: seq<Identity>, roster: seq<Identity>,
    phase1Policy: PhasePolicy, phase2Policy: PhasePolicy, beaconPolicy: BeaconPolicy, phase1Genesis: ArtifactRef)
  {
    function Policy(phase: Phase): PhasePolicy {
      if phase.Phase1? then phase1Policy else phase2Policy
    }
  }

  datatype ChainRecord = ChainRecord(
    recordId: Id, ceremonyId: Id, phase: Phase, phaseId: Id, index: U8, participantId: Id,
    previousPayload: ArtifactRef, outputPayload: ArtifactRef,
    attestationId: Id, attestation: ArtifactRef, attestationSignature: ArtifactRef,
    erasureId: Id, erasure: ArtifactRef, erasureSignature: ArtifactRef, verification: ArtifactRef,
    previousRecordId: Id, coordinatorId: Id, coordinatorKeyId: Id, acceptedAt: Instant)

  datatype Chain = Chain(ceremonyId: Id, phase: Phase, phaseId: Id, genesis: ArtifactRef, records: seq<ChainRecord>) {
    function Prefix(count: nat): Chain
      requires count <= |records|
    {
      this.(records := records[..count])
    }

    function Extend(record: ChainRecord): Chain {
      this.(records := records + [record])
    }
  }

  datatype Attestation = Attestation(
    attestationId: Id, ceremonyId: Id, phase: Phase, phaseId: Id, index: U8,
    participantId: Id, participantKeyId: Id, previousPayload: ArtifactRef, outputPayload: ArtifactRef,
    previousAcceptanceId: Id, software: Software, contributedAt: Instant)

  datatype Erasure = Erasure(
    erasureId: Id, ceremonyId: Id, phase: Phase, phaseId: Id, index: U8,
    participantId: Id, participantKeyId: Id, contributionAttestationId: Id, outputPayload: ArtifactRef,
    destroyedAt: Instant)

  datatype CloseRecord = CloseRecord(
    closeId: Id, ceremonyId: Id, phase: Phase, phaseId: Id, finalIndex: U8, finalPayload: ArtifactRef,
    chainHeadId: Id, acceptedParticipants: seq<Id>, beaconProvider: string, beaconNetwork: string,
    beaconRound: U64, beaconNotBefore: Instant, closedAt: Instant, coordinatorId: Id, coordinatorKeyId: Id)

  datatype Challenge = Challenge(hex: string, sha256: Id)

  datatype BeaconRecord = BeaconRecord(
    beaconId: Id, ceremonyId: Id, phase: Phase, phaseId: Id, closeId: Id, provider: string, network: string,
    round: U64, publishedAt: Instant, rawResponse: ArtifactRef, randomness: string, challenge: Challenge)

  datatype SealRecord = SealRecord(
    sealId: Id, ceremonyId: Id, phase: Phase, phaseId: Id, closeId: Id, beaconId: Id,
    finalPayload: ArtifactRef, outputs: seq<ArtifactRef>, sealedAt: Instant)

  // ----- Canonical hashing -----

  /** What canonicalHash digests: one constructor per domain tag. A record is hashed with its own id emptied. */
  datatype Preimage =
    | Root(definition: Definition)
    | PhaseRoot(ceremonyId: Id, phase: Phase, genesis: ArtifactRef, parentSealId: Id)
    | Genesis(ceremonyId: Id, phaseId: Id, genesis: ArtifactRef)
    | Acceptance(record: ChainRecord)
    | Contribution(attestation: Attestation)
    | Destruction(erasure: Erasure)
    | Closing(close: CloseRecord)
    | Beacon(beacon: BeaconRecord)
    | Sealing(seal: SealRecord)

  /**
   The functions the records depend on but do not define: the canonical hash, the single-field format checks,
   and the beacon challenge derivation.
   */
  datatype Oracles = Oracles(
    hash: Preimage -> Id,
    formatted: Preimage -> bool,
    challenge: (Id, string, string, U64, string) -> Challenge)

  ghost predicate CollisionFree(o: Oracles) {
    forall p: Preimage, q: Preimage :: o.hash(p) == o.hash(q) ==> p == q
  }

  /** Well formed with its id emptied, and carrying the hash of exactly that content as its id. */
  predicate SelfIdentified(o: Oracles, content: Preimage, id: Id) {
    o.formatted(content) && id == o.hash(content)
  }

  predicate ValidRecord(o: Oracles, r: ChainRecord) {
    && 1 <= r.index <= MAX_PARTICIPANTS
    && r.previousPayload.digest.sha256 != r.outputPayload.digest.sha256
    && SelfIdentified(o, Acceptance(r.(recordId := "")), r.recordId)
  }

  predicate ValidAttestation(o: Oracles, a: Attestation) {
    && 1 <= a.index <= MAX_PARTICIPANTS
    && a.previousPayload.digest.sha256 != a.outputPayload.digest.sha256
    && SelfIdentified(o, Contribution(a.(attestationId := "")), a.attestationId)
  }

  predicate ValidErasure(o: Oracles, e: Erasure) {
    && 1 <= e.index <= MAX_PARTICIPANTS
    && SelfIdentified(o, Destruction(e.(erasureId := "")), e.erasureId)
  }
}
