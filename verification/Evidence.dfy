/**
 Operational evidence as documents under one root. A canonical file is the record it encodes;
 digests, signatures and single-field formats are functions of the document.
 */
module Evidence {
  import opened Common
  import opened Records
  import opened Order
  import Definitions
  import Chains
  import Lifecycle

  datatype SignedRefs = SignedRefs(record: ArtifactRef, signature: ArtifactRef)

  datatype Source = Source(sourceCommit: string, toolBinary: Digest, r1cs: ArtifactRef)

  datatype Handoff = Handoff(
    ceremonyId: Id, phase: Phase, index: U8, predecessorHeadId: Id, source: Source, files: seq<ArtifactRef>,
    senderId: Id, senderKeyId: Id, recipientId: Id, recipientKeyId: Id, createdAt: Instant, expiresAt: Instant)

  datatype Receipt = Receipt(
    handoffSha256: Id, ceremonyId: Id, phase: Phase, index: U8, predecessorHeadId: Id, source: Source,
    files: seq<ArtifactRef>, senderId: Id, senderKeyId: Id, recipientId: Id, recipientKeyId: Id,
    signerId: Id, signerKeyId: Id, receivedAt: Instant)

  datatype Verification = Verification(
    ceremonyId: Id, phase: Phase, phaseId: Id, index: U8, participantId: Id,
    previousPayload: ArtifactRef, outputPayload: ArtifactRef, attestationId: Id, erasureId: Id,
    previousRecordId: Id, coordinatorId: Id, coordinatorKeyId: Id, verifiedAt: Instant)

  datatype WitnessReceipt = WitnessReceipt(
    ceremonyId: Id, phase: Phase, closeId: Id, chainHeadId: Id, closure: ArtifactRef,
    beaconRound: U64, beaconScheduledAt: Instant, observer: Identity, observedAt: Instant)

  datatype Observation = Observation(
    relayId: Id, operatorId: Id, endpoint: Id, rawResponse: ArtifactRef, retrievedAt: Instant, randomness: string)

  datatype RelayEvidence = RelayEvidence(
    ceremonyId: Id, phase: Phase, closeId: Id, beaconRound: U64, provider: string, network: string,
    observations: seq<Observation>, coordinatorId: Id, coordinatorKeyId: Id, recordedAt: Instant)

  datatype MirrorReceipt = MirrorReceipt(
    ceremonyId: Id, phase: Phase, index: U8, acceptedHeadId: Id, files: seq<ArtifactRef>,
    mirror: Identity, storedAt: Instant)

  datatype Enrollment = Enrollment(
    ceremonyId: Id, definition: Digest, rosterSha256: Id, identity: Identity,
    role: Definitions.Role, roleIndex: U16, disclosure: ArtifactRef, enrolledAt: Instant)

  datatype Governance = Governance(
    ceremonyId: Id, phase: Phase, index: U8, headId: Id, evidence: seq<ArtifactRef>,
    signerId: Id, signerKeyId: Id, recordedAt: Instant)

  datatype Document =
    | DefinitionDoc(definition: Definition)
    | ChainDoc(chain: Chain)
    | CloseDoc(close: CloseRecord)
    | AttestationDoc(attestation: Attestation)
    | ErasureDoc(erasure: Erasure)
    | VerificationDoc(verification: Verification)
    | HandoffDoc(handoff: Handoff)
    | ReceiptDoc(receipt: Receipt)
    | WitnessDoc(sighting: WitnessReceipt)
    | RelayDoc(relay: RelayEvidence)
    | MirrorDoc(mirror: MirrorReceipt)
    | EnrollmentDoc(enrollment: Enrollment)
    | GovernanceDoc(governance: Governance)
    | Opaque(content: string)

  type Root = map<string, Document>

  /** Foreign functions: digests, Ed25519 over exact bytes, drand responses, and single-field formats. */
  datatype World = World(
    oracles: Oracles,
    digest: Document -> Digest,
    signed: (Document, Document, Identity) -> bool,
    rosterSha256: seq<Identity> -> Id,
    drand: (BeaconPolicy, U64, Document) -> Option<string>,
    formatted: Document -> bool)

  /** The file a reference names, provided it has the referenced digest. */
  function Load(w: World, root: Root, ref: ArtifactRef): Option<Document> {
    if ref.name in root && w.digest(root[ref.name]) == ref.digest then Some(root[ref.name]) else None
  }

  predicate Loads(w: World, root: Root, ref: ArtifactRef) {
    Load(w, root, ref).Some?
  }

  /** Record and signature load, and the signature is `signer`'s over the record's exact bytes. */
  predicate SignedBy(w: World, root: Root, refs: SignedRefs, signer: Identity) {
    var record, signature := Load(w, root, refs.record), Load(w, root, refs.signature);
    record.Some? && signature.Some? && w.signed(record.value, signature.value, signer)
  }

  // ----- Opening lists of signed records -----

  /** The first `count` records, if each of them opens. */
  function OpenAll<T>(open: SignedRefs -> Option<T>, pairs: seq<SignedRefs>, count: nat): (records: Option<seq<T>>)
    requires count <= |pairs|
    ensures records.Some? ==> |records.value| == count
  {
    if count == 0 then Some([])
    else
      match (OpenAll(open, pairs, count - 1), open(pairs[count - 1]))
      case (Some(records), Some(r)) => Some(records + [r])
      case _ => None
  }

  /** If all open, so does every shorter list, with the same records; each record comes from its own pair. */
  lemma {:induction false} OpenPrefix<T>(open: SignedRefs -> Option<T>, pairs: seq<SignedRefs>, i: nat, count: nat)
    requires i <= count <= |pairs|
    ensures OpenAll(open, pairs, count).Some? ==>
              && OpenAll(open, pairs, i).Some?
              && OpenAll(open, pairs, i).value == OpenAll(open, pairs, count).value[..i]
    decreases count
  {
    if i < count {
      OpenPrefix(open, pairs, i, count - 1);
    }
  }

  lemma OpenEach<T>(open: SignedRefs -> Option<T>, pairs: seq<SignedRefs>, records: seq<T>, i: nat)
    requires OpenAll(open, pairs, |pairs|) == Some(records) && i < |pairs|
    ensures open(pairs[i]) == Some(records[i])
  {
    OpenPrefix(open, pairs, i + 1, |pairs|);
  }

  /** No two of these people share an id or a public key. */
  predicate DistinctPeople(people: seq<Identity>) {
    forall i, j | 0 <= i < j < |people| ::
      people[i].id != people[j].id && people[i].fingerprint != people[j].fingerprint
  }

  function Ids(people: seq<Identity>): set<Id> {
    set p | p in people :: p.id
  }

  function Keys(people: seq<Identity>): set<Id> {
    set p | p in people :: p.fingerprint
  }

  lemma DistinctStep(people: seq<Identity>, next: Identity)
    ensures Ids(people + [next]) == Ids(people) + {next.id}
    ensures Keys(people + [next]) == Keys(people) + {next.fingerprint}
    ensures DistinctPeople(people + [next]) <==>
            DistinctPeople(people) && next.id !in Ids(people) && next.fingerprint !in Keys(people)
  {
    var longer := people + [next];
    assert forall p :: p in longer <==> p in people || p == next;
    if DistinctPeople(longer) {
      forall p | p in people ensures p.id != next.id && p.fingerprint != next.fingerprint {
        var i :| 0 <= i < |people| && people[i] == p;
        assert longer[i] == p && longer[|people|] == next;
      }
      forall i, j | 0 <= i < j < |people|
        ensures people[i].id != people[j].id && people[i].fingerprint != people[j].fingerprint
      {
        assert longer[i] == people[i] && longer[j] == people[j];
      }
    }
  }

  lemma DistinctFront(people: seq<Identity>, count: nat)
    requires count <= |people|
    ensures DistinctPeople(people) ==> DistinctPeople(people[..count])
  {
  }

  // ----- Record rules -----

  /** 1 to 128 artifacts in strict name order. */
  predicate ArtifactSet(files: seq<ArtifactRef>) {
    && 1 <= |files| <= 128
    && forall i | 0 < i < |files| :: Less(files[i - 1].name, files[i].name)
  }

  predicate Scoped(index: U8) {
    1 <= index <= MAX_PARTICIPANTS
  }

  predicate ValidHandoff(w: World, h: Handoff) {
    && w.formatted(HandoffDoc(h))
    && Scoped(h.index)
    && ArtifactSet(h.files)
    && h.senderId != h.recipientId && h.senderKeyId != h.recipientKeyId
    && h.expiresAt > h.createdAt
  }

  predicate ValidReceipt(w: World, r: Receipt) {
    && w.formatted(ReceiptDoc(r))
    && Scoped(r.index)
    && ArtifactSet(r.files)
    && r.senderId != r.recipientId && r.senderKeyId != r.recipientKeyId
    && r.signerId == r.recipientId && r.signerKeyId == r.recipientKeyId
  }

  predicate ValidWitness(w: World, r: WitnessReceipt) {
    && w.formatted(WitnessDoc(r))
    && r.beaconRound != 0
    && r.observedAt < r.beaconScheduledAt
  }

  predicate ValidMirror(w: World, r: MirrorReceipt) {
    && w.formatted(MirrorDoc(r))
    && Scoped(r.index)
    && ArtifactSet(r.files)
  }

  predicate ValidEnrollment(w: World, r: Enrollment) {
    w.formatted(EnrollmentDoc(r)) && r.roleIndex != 0
  }

  predicate ValidGovernance(w: World, r: Governance) {
    w.formatted(GovernanceDoc(r)) && Scoped(r.index) && ArtifactSet(r.evidence)
  }

  predicate ValidObservation(o: Observation) {
    |o.randomness| == 64
  }

  predicate ValidRelay(w: World, r: RelayEvidence) {
    var obs := r.observations;
    && w.formatted(RelayDoc(r))
    && r.beaconRound != 0
    && 3 <= |obs| <= 16
    && (forall i | 0 <= i < |obs| :: ValidObservation(obs[i]))
    && (forall i | 0 < i < |obs| :: Less(obs[i - 1].relayId, obs[i].relayId))
    && (forall i, j | 0 <= i < j < |obs| :: Independent(obs[i], obs[j]))
    && (forall i | 0 <= i < |obs| :: obs[i].randomness == obs[0].randomness)
    && (forall i | 0 <= i < |obs| :: obs[i].retrievedAt <= r.recordedAt)
  }

  predicate Independent(a: Observation, b: Observation) {
    a.relayId != b.relayId && a.operatorId != b.operatorId && a.endpoint != b.endpoint
  }

  /** The relays, operators and endpoints of the first `count` observations. */
  function Taken(obs: seq<Observation>, count: nat): (set<Id>, set<Id>, set<Id>)
    requires count <= |obs|
    ensures count == 0 ==> Taken(obs, count).0 == {} && Taken(obs, count).1 == {} && Taken(obs, count).2 == {}
  {
    (set k | 0 <= k < count :: obs[k].relayId,
     set k | 0 <= k < count :: obs[k].operatorId,
     set k | 0 <= k < count :: obs[k].endpoint)
  }

  lemma NextIsIndependent(obs: seq<Observation>, i: nat)
    requires i < |obs|
    ensures var taken := Taken(obs, i);
            (obs[i].relayId in taken.0 || obs[i].operatorId in taken.1 || obs[i].endpoint in taken.2) <==>
            exists k | 0 <= k < i :: !Independent(obs[k], obs[i])
    ensures var taken := Taken(obs, i);
            Taken(obs, i + 1) ==
            (taken.0 + {obs[i].relayId}, taken.1 + {obs[i].operatorId}, taken.2 + {obs[i].endpoint})
  {
    var before, after := Taken(obs, i), Taken(obs, i + 1);
    assert after.0 == before.0 + {obs[i].relayId};
    assert after.1 == before.1 + {obs[i].operatorId};
    assert after.2 == before.2 + {obs[i].endpoint};
  }

  /** The observation loop, with its maps of relays, operators and endpoints and the common randomness. */
  method ValidateRelay(w: World, r: RelayEvidence) returns (ok: bool)
    ensures ok <==> ValidRelay(w, r)
  {
    hide Taken, Independent;
    var obs := r.observations;
    if !w.formatted(RelayDoc(r)) || r.beaconRound == 0 || |obs| < 3 || |obs| > 16 {
      return false;
    }
    var relays: set<Id>, operators: set<Id>, endpoints: set<Id> := {}, {}, {};
    var randomness := "";
    var previousRelay := "";
    for i := 0 to |obs|
      invariant (relays, operators, endpoints) == Taken(obs, i)
      invariant forall k | 0 <= k < i :: ValidObservation(obs[k])
      invariant i > 0 ==> previousRelay == obs[i - 1].relayId
      invariant randomness == if i == 0 then "" else obs[0].randomness
      invariant forall k | 0 < k < i :: Less(obs[k - 1].relayId, obs[k].relayId)
      invariant forall j, k | 0 <= j < k < i :: Independent(obs[j], obs[k])
      invariant forall k | 0 <= k < i :: obs[k].randomness == obs[0].randomness
    {
      if !ValidObservation(obs[i]) {
        return false;
      }
      if i > 0 && !Less(previousRelay, obs[i].relayId) {
        return false;
      }
      previousRelay := obs[i].relayId;
      if obs[i].relayId in relays || obs[i].operatorId in operators || obs[i].endpoint in endpoints {
        NextIsIndependent(obs, i);
        return false;
      }
      NextIsIndependent(obs, i);
      relays := relays + {obs[i].relayId};
      operators := operators + {obs[i].operatorId};
      endpoints := endpoints + {obs[i].endpoint};
      if randomness == "" {
        randomness := obs[i].randomness;
      } else if obs[i].randomness != randomness {
        return false;
      }
    }
    for i := 0 to |obs|
      invariant forall k | 0 <= k < i :: obs[k].retrievedAt <= r.recordedAt
    {
      if r.recordedAt < obs[i].retrievedAt {
        return false;
      }
    }
    ok := true;
  }

  // ----- Typed loading: the file decodes to a record of the wanted kind that passes its own rules -----

  function LoadChain(w: World, root: Root, ref: ArtifactRef): Option<Chain> {
    match Load(w, root, ref)
    case Some(ChainDoc(c)) => if Chains.ValidChain(w.oracles, c) then Some(c) else None
    case _ => None
  }

  function LoadAttestation(w: World, root: Root, ref: ArtifactRef): Option<Attestation> {
    match Load(w, root, ref)
    case Some(AttestationDoc(a)) => if ValidAttestation(w.oracles, a) then Some(a) else None
    case _ => None
  }

  function LoadErasure(w: World, root: Root, ref: ArtifactRef): Option<Erasure> {
    match Load(w, root, ref)
    case Some(ErasureDoc(e)) => if ValidErasure(w.oracles, e) then Some(e) else None
    case _ => None
  }

  function LoadVerification(w: World, root: Root, ref: ArtifactRef): Option<Verification> {
    match Load(w, root, ref)
    case Some(VerificationDoc(v)) => if w.formatted(VerificationDoc(v)) then Some(v) else None
    case _ => None
  }

  function LoadHandoff(w: World, root: Root, ref: ArtifactRef): Option<Handoff> {
    match Load(w, root, ref)
    case Some(HandoffDoc(h)) => if ValidHandoff(w, h) then Some(h) else None
    case _ => None
  }

  function LoadReceipt(w: World, root: Root, ref: ArtifactRef): Option<Receipt> {
    match Load(w, root, ref)
    case Some(ReceiptDoc(r)) => if ValidReceipt(w, r) then Some(r) else None
    case _ => None
  }

  function LoadWitness(w: World, root: Root, ref: ArtifactRef): Option<WitnessReceipt> {
    match Load(w, root, ref)
    case Some(WitnessDoc(r)) => if ValidWitness(w, r) then Some(r) else None
    case _ => None
  }

  function LoadRelay(w: World, root: Root, ref: ArtifactRef): Option<RelayEvidence> {
    match Load(w, root, ref)
    case Some(RelayDoc(r)) => if ValidRelay(w, r) then Some(r) else None
    case _ => None
  }

  function LoadMirror(w: World, root: Root, ref: ArtifactRef): Option<MirrorReceipt> {
    match Load(w, root, ref)
    case Some(MirrorDoc(r)) => if ValidMirror(w, r) then Some(r) else None
    case _ => None
  }

  function LoadEnrollment(w: World, root: Root, ref: ArtifactRef): Option<Enrollment> {
    match Load(w, root, ref)
    case Some(EnrollmentDoc(r)) => if ValidEnrollment(w, r) then Some(r) else None
    case _ => None
  }

  function LoadGovernance(w: World, root: Root, ref: ArtifactRef): Option<Governance> {
    match Load(w, root, ref)
    case Some(GovernanceDoc(r)) => if ValidGovernance(w, r) then Some(r) else None
    case _ => None
  }

  function LoadClose(w: World, root: Root, ref: ArtifactRef): Option<CloseRecord> {
    match Load(w, root, ref)
    case Some(CloseDoc(r)) => if Lifecycle.ValidCloseRecord(w.oracles, r) then Some(r) else None
    case _ => None
  }
}
