/** Per-head custody evidence: what verifyAcceptedHeadEvidence requires of each accepted record, and its timeline. */
module Custody {
  import opened Common
  import opened Records
  import opened Definitions
  import opened Chains
  import opened Acceptances
  import opened Evidence
  import References

  datatype HeadEvidence = HeadEvidence(
    index: U8, predecessorHeadId: Id, acceptedHeadId: Id,
    outboundHandoff: SignedRefs, outboundReceipt: SignedRefs,
    returnHandoff: SignedRefs, returnReceipt: SignedRefs,
    chainPrefix: SignedRefs, mirrorReceipts: seq<SignedRefs>)

  /** The documents behind one accepted head. */
  datatype Dossier = Dossier(
    prefix: Chain, attestation: Attestation, erasure: Erasure, verification: Verification,
    outbound: Handoff, outboundReceipt: Receipt, homebound: Handoff, homeboundReceipt: Receipt)

  function OpenDossier(w: World, root: Root, r: ChainRecord, e: HeadEvidence): Option<Dossier> {
    match (LoadChain(w, root, e.chainPrefix.record),
           LoadAttestation(w, root, r.attestation),
           LoadErasure(w, root, r.erasure),
           LoadVerification(w, root, r.verification),
           LoadHandoff(w, root, e.outboundHandoff.record),
           LoadReceipt(w, root, e.outboundReceipt.record),
           LoadHandoff(w, root, e.returnHandoff.record),
           LoadReceipt(w, root, e.returnReceipt.record))
    case (Some(prefix), Some(a), Some(x), Some(v), Some(out), Some(outReceipt), Some(home), Some(homeReceipt)) =>
      Some(Dossier(prefix, a, x, v, out, outReceipt, home, homeReceipt))
    case _ => None
  }

  function VerificationOf(r: ChainRecord): Verification {
    Verification(r.ceremonyId, r.phase, r.phaseId, r.index, r.participantId, r.previousPayload, r.outputPayload,
                 r.attestationId, r.erasureId, r.previousRecordId, r.coordinatorId, r.coordinatorKeyId, r.acceptedAt)
  }

  predicate Party(d: Definition, id: Id, keyId: Id) {
    ActorById(d, id).Some? && ActorById(d, id).value.keyId == keyId
  }

  predicate SignedByParty(w: World, root: Root, d: Definition, refs: SignedRefs, id: Id, keyId: Id) {
    Party(d, id, keyId) && SignedBy(w, root, refs, ActorById(d, id).value)
  }

  function SourceOf(d: Definition): Source {
    Source(d.software.sourceCommit, d.software.toolBinary, d.r1cs)
  }

  predicate BoundHandoff(w: World, root: Root, d: Definition, refs: SignedRefs, h: Handoff) {
    && h.ceremonyId == d.ceremonyId
    && h.source == SourceOf(d)
    && Party(d, h.senderId, h.senderKeyId) && Party(d, h.recipientId, h.recipientKeyId)
    && SignedByParty(w, root, d, refs, h.senderId, h.senderKeyId)
  }

  predicate BoundReceipt(w: World, root: Root, d: Definition, refs: SignedRefs, r: Receipt) {
    && r.ceremonyId == d.ceremonyId
    && r.source == SourceOf(d)
    && Party(d, r.senderId, r.senderKeyId) && Party(d, r.recipientId, r.recipientKeyId)
    && SignedByParty(w, root, d, refs, r.signerId, r.signerKeyId)
  }

  /** VerifyTransferReceipt. */
  predicate Acknowledges(w: World, h: Handoff, r: Receipt) {
    && ValidHandoff(w, h) && ValidReceipt(w, r)
    && w.digest(HandoffDoc(h)).sha256 == r.handoffSha256
    && r.ceremonyId == h.ceremonyId && r.phase == h.phase && r.index == h.index
    && r.predecessorHeadId == h.predecessorHeadId && r.source == h.source && r.files == h.files
    && r.senderId == h.senderId && r.senderKeyId == h.senderKeyId
    && r.recipientId == h.recipientId && r.recipientKeyId == h.recipientKeyId
    && h.createdAt < r.receivedAt <= h.expiresAt
  }

  predicate Carries(
    h: Handoff, phase: Phase, r: ChainRecord, from: Identity, to: Identity, files: seq<ArtifactRef>)
  {
    && h.phase == phase && h.index == r.index && h.predecessorHeadId == r.previousRecordId
    && h.senderId == from.id && h.senderKeyId == from.keyId
    && h.recipientId == to.id && h.recipientKeyId == to.keyId
    && h.files == files
  }

  function ReturnFiles(r: ChainRecord): seq<ArtifactRef> {
    References.SortedRefs([r.attestation, r.attestationSignature, r.erasure, r.erasureSignature, r.outputPayload])
  }

  function MirrorFiles(r: ChainRecord, e: HeadEvidence): seq<ArtifactRef> {
    References.SortedRefs(ReturnFiles(r) + [r.verification, e.chainPrefix.record, e.chainPrefix.signature])
  }

  function PredecessorTime(d: Definition, c: Chain, i: nat): Instant
    requires i <= |c.records|
  {
    if i == 0 then d.createdAt else c.records[i - 1].acceptedAt
  }

  /** The local timestamp check at the end of each head. */
  predicate HandledInOrder(before: Instant, x: Dossier, r: ChainRecord) {
    && before < x.outbound.createdAt
    && x.outbound.createdAt < x.outboundReceipt.receivedAt
    && x.outboundReceipt.receivedAt < x.attestation.contributedAt
    && x.attestation.contributedAt < x.homebound.createdAt
    && x.erasure.destroyedAt < x.homebound.createdAt
    && x.homebound.createdAt < x.homeboundReceipt.receivedAt
    && x.homeboundReceipt.receivedAt < r.acceptedAt
  }

  predicate DossierCoheres(
    w: World, root: Root, d: Definition, c: Chain, i: nat, participant: Identity, e: HeadEvidence, x: Dossier)
    requires i < |c.records|
  {
    var r := c.records[i];
    && SignedBy(w, root, e.chainPrefix, d.coordinator)
    && x.prefix == c.Prefix(i + 1)
    && SignedBy(w, root, SignedRefs(r.attestation, r.attestationSignature), participant)
    && SignedBy(w, root, SignedRefs(r.erasure, r.erasureSignature), participant)
    && ErasureBinds(w.oracles, x.attestation, x.erasure)
    && Acceptable(w.oracles, d, c.Prefix(i), x.attestation, x.erasure, r)
    && x.verification == VerificationOf(r)
    && BoundHandoff(w, root, d, e.outboundHandoff, x.outbound)
    && Carries(x.outbound, c.phase, r, d.coordinator, participant, [r.previousPayload])
    && BoundReceipt(w, root, d, e.outboundReceipt, x.outboundReceipt)
    && Acknowledges(w, x.outbound, x.outboundReceipt)
    && BoundHandoff(w, root, d, e.returnHandoff, x.homebound)
    && Carries(x.homebound, c.phase, r, participant, d.coordinator, ReturnFiles(r))
    && BoundReceipt(w, root, d, e.returnReceipt, x.homeboundReceipt)
    && Acknowledges(w, x.homebound, x.homeboundReceipt)
    && HandledInOrder(PredecessorTime(d, c, i), x, r)
  }

  // ----- Mirrors -----

  type Enrollments = map<Id, Enrollment>

  predicate EnrolledAs(enrollments: Enrollments, identity: Identity, role: Role) {
    && identity.id in enrollments
    && enrollments[identity.id].role == role
    && enrollments[identity.id].identity == identity
  }

  /** One mirror receipt for exactly this head, by an enrolled mirror operator, stored after acceptance. */
  function OpenMirror(
    w: World, root: Root, d: Definition, phase: Phase, r: ChainRecord, e: HeadEvidence,
    enrollments: Enrollments, refs: SignedRefs): Option<MirrorReceipt>
  {
    match LoadMirror(w, root, refs.record)
    case None => None
    case Some(m) =>
      if && m.ceremonyId == d.ceremonyId && m.phase == phase && m.index == r.index
         && m.acceptedHeadId == e.acceptedHeadId && m.files == MirrorFiles(r, e)
         && SignedBy(w, root, refs, m.mirror)
         && m.storedAt > r.acceptedAt
         && EnrolledAs(enrollments, m.mirror, MirrorRole)
      then Some(m) else None
  }

  function MirrorOpener(
    w: World, root: Root, d: Definition, phase: Phase, r: ChainRecord, e: HeadEvidence, enrollments: Enrollments)
    : SignedRefs -> Option<Identity>
  {
    refs =>
      match OpenMirror(w, root, d, phase, r, e, enrollments, refs)
      case Some(m) => Some(m.mirror)
      case None => None
  }

  predicate MirrorsHold(open: SignedRefs -> Option<Identity>, pairs: seq<SignedRefs>) {
    var mirrors := OpenAll(open, pairs, |pairs|);
    mirrors.Some? && DistinctPeople(mirrors.value)
  }

  method VerifyMirrors(open: SignedRefs -> Option<Identity>, pairs: seq<SignedRefs>) returns (ok: bool)
    ensures ok <==> MirrorsHold(open, pairs)
  {
    ghost var mirrors: seq<Identity> := [];
    ghost var all := OpenAll(open, pairs, |pairs|);
    var mirrorIds: set<Id>, mirrorKeys: set<Id> := {}, {};
    for i := 0 to |pairs|
      invariant OpenAll(open, pairs, i) == Some(mirrors) && DistinctPeople(mirrors)
      invariant mirrorIds == Ids(mirrors) && mirrorKeys == Keys(mirrors)
    {
      OpenPrefix(open, pairs, i + 1, |pairs|);
      if all.Some? {
        DistinctFront(all.value, i + 1);
      }
      var next := open(pairs[i]);
      if next.None? {
        return false;
      }
      DistinctStep(mirrors, next.value);
      if next.value.id in mirrorIds || next.value.fingerprint in mirrorKeys {
        return false;
      }
      mirrorIds := mirrorIds + {next.value.id};
      mirrorKeys := mirrorKeys + {next.value.fingerprint};
      mirrors := mirrors + [next.value];
    }
    ok := true;
  }

  // ----- All heads -----

  /** The participant scheduled for record `i`. */
  function ScheduledParticipant(d: Definition, phase: Phase, i: nat): Option<Identity> {
    var scheduled := d.Policy(phase).participants;
    if i < |scheduled| then ParticipantById(d, scheduled[i]) else None
  }

  predicate HeadVerified(
    w: World, root: Root, d: Definition, c: Chain, i: nat, e: HeadEvidence, enrollments: Enrollments)
    requires i < |c.records|
  {
    var r := c.records[i];
    var dossier, participant := OpenDossier(w, root, r, e), ScheduledParticipant(d, c.phase, i);
    && e.acceptedHeadId == r.recordId && e.predecessorHeadId == r.previousRecordId
    && dossier.Some?
    && participant.Some?
    && DossierCoheres(w, root, d, c, i, participant.value, e, dossier.value)
    && MirrorsHold(MirrorOpener(w, root, d, c.phase, r, e, enrollments), e.mirrorReceipts)
  }

  function SignedPair(refs: SignedRefs): seq<ArtifactRef> {
    [refs.record, refs.signature]
  }

  function SignedPairs(refs: seq<SignedRefs>): seq<ArtifactRef> {
    if refs == [] then [] else SignedPair(refs[0]) + SignedPairs(refs[1..])
  }

  function HeadRefs(r: ChainRecord, e: HeadEvidence): seq<ArtifactRef> {
    SignedPair(e.chainPrefix)
    + [r.attestation, r.attestationSignature, r.erasure, r.erasureSignature, r.verification]
    + SignedPairs([e.outboundHandoff, e.outboundReceipt, e.returnHandoff, e.returnReceipt] + e.mirrorReceipts)
  }

  /** Concatenation of the first `count` lists. */
  function Flatten(lists: nat -> seq<ArtifactRef>, count: nat): seq<ArtifactRef> {
    if count == 0 then [] else Flatten(lists, count - 1) + lists(count - 1)
  }

  /** The verdict on each head, and the references it contributes. */
  function HeadVerdict(
    w: World, root: Root, d: Definition, c: Chain, heads: seq<HeadEvidence>, enrollments: Enrollments): nat -> bool
  {
    (i: nat) => i < |heads| && i < |c.records| && HeadVerified(w, root, d, c, i, heads[i], enrollments)
  }

  function HeadRefsAt(c: Chain, heads: seq<HeadEvidence>): nat -> seq<ArtifactRef> {
    (i: nat) => if i < |heads| && i < |c.records| then HeadRefs(c.records[i], heads[i]) else []
  }

  predicate HeadsVerified(
    w: World, root: Root, d: Definition, c: Chain, heads: seq<HeadEvidence>, enrollments: Enrollments)
  {
    && |heads| == |c.records|
    && forall i: nat | i < |heads| :: HeadVerdict(w, root, d, c, heads, enrollments)(i)
  }

  // ----- What a head refers to -----

  ghost predicate InPair(r: ArtifactRef, pair: SignedRefs) {
    r == pair.record || r == pair.signature
  }

  ghost predicate InPairs(r: ArtifactRef, pairs: seq<SignedRefs>) {
    exists i | 0 <= i < |pairs| :: InPair(r, pairs[i])
  }

  /** A document of one accepted head: its chain prefix, attestation, erasure, verification, transfers and mirrors. */
  ghost predicate OfHead(r: ArtifactRef, record: ChainRecord, e: HeadEvidence) {
    || InPair(r, e.chainPrefix)
    || r == record.attestation || r == record.attestationSignature
    || r == record.erasure || r == record.erasureSignature
    || r == record.verification
    || InPair(r, e.outboundHandoff) || InPair(r, e.outboundReceipt)
    || InPair(r, e.returnHandoff) || InPair(r, e.returnReceipt)
    || InPairs(r, e.mirrorReceipts)
  }

  lemma {:induction false} PairsHold(r: ArtifactRef, pairs: seq<SignedRefs>)
    ensures r in SignedPairs(pairs) <==> InPairs(r, pairs)
  {
    if pairs != [] {
      PairsHold(r, pairs[1..]);
      assert r in SignedPair(pairs[0]) <==> InPair(r, pairs[0]);
      InPairsSplit(r, pairs[..1], pairs[1..]);
      assert pairs == pairs[..1] + pairs[1..];
      assert InPairs(r, pairs[..1]) <==> InPair(r, pairs[..1][0]);
    }
  }

  lemma InPairsSplit(r: ArtifactRef, front: seq<SignedRefs>, back: seq<SignedRefs>)
    ensures InPairs(r, front + back) <==> InPairs(r, front) || InPairs(r, back)
  {
    var all := front + back;
    if i :| 0 <= i < |front| && InPair(r, front[i]) {
      assert InPair(r, all[i]);
    }
    if i :| 0 <= i < |back| && InPair(r, back[i]) {
      assert InPair(r, all[|front| + i]);
    }
    if i :| 0 <= i < |all| && InPair(r, all[i]) {
      assert i >= |front| ==> all[i] == back[i - |front|];
    }
  }

  lemma {:induction false} FlattenHolds(r: ArtifactRef, lists: nat -> seq<ArtifactRef>, count: nat)
    ensures r in Flatten(lists, count) <==> exists i: nat | i < count :: r in lists(i)
  {
    if count > 0 {
      FlattenHolds(r, lists, count - 1);
    }
  }

  lemma HeadRefsHold(r: ArtifactRef, record: ChainRecord, e: HeadEvidence)
    ensures r in HeadRefs(record, e) <==> OfHead(r, record, e)
  {
    var transfers := [e.outboundHandoff, e.outboundReceipt, e.returnHandoff, e.returnReceipt];
    PairsHold(r, transfers + e.mirrorReceipts);
    InPairsSplit(r, transfers, e.mirrorReceipts);
    FourPairs(r, e.outboundHandoff, e.outboundReceipt, e.returnHandoff, e.returnReceipt);
    assert r in SignedPair(e.chainPrefix) <==> InPair(r, e.chainPrefix);
  }

  lemma FourPairs(r: ArtifactRef, a: SignedRefs, b: SignedRefs, c: SignedRefs, d: SignedRefs)
    ensures InPairs(r, [a, b, c, d]) <==> InPair(r, a) || InPair(r, b) || InPair(r, c) || InPair(r, d)
  {
    var pairs := [a, b, c, d];
    assert pairs[0] == a && pairs[1] == b && pairs[2] == c && pairs[3] == d;
  }

  lemma HeadRefsAtHold(r: ArtifactRef, c: Chain, heads: seq<HeadEvidence>)
    ensures r in Flatten(HeadRefsAt(c, heads), |heads|) <==>
            exists i | 0 <= i < |heads| && i < |c.records| :: OfHead(r, c.records[i], heads[i])
  {
    hide HeadRefs, OfHead;
    FlattenHolds(r, HeadRefsAt(c, heads), |heads|);
    forall i: nat | i < |heads| && i < |c.records|
      ensures r in HeadRefsAt(c, heads)(i) <==> OfHead(r, c.records[i], heads[i])
    {
      HeadRefsHold(r, c.records[i], heads[i]);
    }
  }

  /** One head: its ids, its dossier with the scheduled participant, the coherence of all of it, and its mirrors. */
  method VerifyHead(
    w: World, root: Root, d: Definition, c: Chain, i: nat, e: HeadEvidence, enrollments: Enrollments)
    returns (ok: bool)
    requires i < |c.records|
    ensures ok <==> HeadVerified(w, root, d, c, i, e, enrollments)
  {
    hide OpenDossier, DossierCoheres, MirrorsHold, ScheduledParticipant, MirrorOpener;
    var r := c.records[i];
    if e.acceptedHeadId != r.recordId || e.predecessorHeadId != r.previousRecordId {
      return false;
    }
    var dossier := OpenDossier(w, root, r, e);
    var participant := ScheduledParticipant(d, c.phase, i);
    if dossier.None? || participant.None? {
      return false;
    }
    if !DossierCoheres(w, root, d, c, i, participant.value, e, dossier.value) {
      return false;
    }
    ok := VerifyMirrors(MirrorOpener(w, root, d, c.phase, r, e, enrollments), e.mirrorReceipts);
  }

  /** The loop over heads: stops at the first refused one, and otherwise has gathered every reference in order. */
  method VerifyAcceptedHeads(
    w: World, root: Root, d: Definition, c: Chain, heads: seq<HeadEvidence>, enrollments: Enrollments)
    returns (ok: bool, refs: seq<ArtifactRef>)
    requires |heads| == |c.records|
    ensures ok <==> HeadsVerified(w, root, d, c, heads, enrollments)
    ensures ok ==> refs == Flatten(HeadRefsAt(c, heads), |heads|)
    ensures ok ==> forall r :: r in refs <==> exists i | 0 <= i < |heads| :: OfHead(r, c.records[i], heads[i])
  {
    hide HeadVerified, HeadRefs, OfHead;
    refs := [];
    for i := 0 to |heads|
      invariant forall k: nat | k < i :: HeadVerdict(w, root, d, c, heads, enrollments)(k)
      invariant refs == Flatten(HeadRefsAt(c, heads), i)
    {
      var verified := VerifyHead(w, root, d, c, i, heads[i], enrollments);
      assert verified <==> HeadVerdict(w, root, d, c, heads, enrollments)(i);
      if !verified {
        return false, [];
      }
      refs := refs + HeadRefs(c.records[i], heads[i]);
    }
    ok := true;
    forall r
      ensures r in refs <==> exists i | 0 <= i < |heads| :: OfHead(r, c.records[i], heads[i])
    {
      HeadRefsAtHold(r, c, heads);
    }
  }

  // ----- What a verified head says -----

  ghost predicate SignedDocument(w: World, root: Root, refs: SignedRefs, document: Document, signer: Identity) {
    && refs.record.name in root && root[refs.record.name] == document && w.digest(document) == refs.record.digest
    && refs.signature.name in root && w.digest(root[refs.signature.name]) == refs.signature.digest
    && w.signed(document, root[refs.signature.name], signer)
  }

  lemma SignedDocumentLoads(w: World, root: Root, refs: SignedRefs, document: Document, signer: Identity)
    ensures SignedDocument(w, root, refs, document, signer) <==>
            SignedBy(w, root, refs, signer) && Load(w, root, refs.record) == Some(document)
  {
  }

  /** A handoff for this record, received in time by its recipient, whose receipt repeats all of it. */
  ghost predicate Delivered(
    w: World, d: Definition, phase: Phase, h: Handoff, r: Receipt, record: ChainRecord, from: Identity, to: Identity)
  {
    && h.ceremonyId == d.ceremonyId == r.ceremonyId && h.phase == phase == r.phase
    && h.source == Source(d.software.sourceCommit, d.software.toolBinary, d.r1cs) == r.source
    && h.senderId == from.id == r.senderId && h.senderKeyId == from.keyId == r.senderKeyId
    && h.recipientId == to.id == r.recipientId && h.recipientKeyId == to.keyId == r.recipientKeyId
    && h.index == record.index == r.index
    && h.predecessorHeadId == record.previousRecordId == r.predecessorHeadId
    && r.handoffSha256 == w.digest(HandoffDoc(h)).sha256
    && r.signerId == to.id && r.signerKeyId == to.keyId
    && r.files == h.files && from.id != to.id && from.keyId != to.keyId
    && h.createdAt < r.receivedAt <= h.expiresAt
  }

  /**
   The documents of a verified head: the coordinator signed the chain up to this record; the scheduled participant
   signed the attestation and the erasure; the payload before it went out to the participant, and the five results
   came back, each handoff acknowledged by its recipient; and the verification record repeats the accepted one.
   */
  lemma HeadStates(
    w: World, root: Root, d: Definition, c: Chain, i: nat, e: HeadEvidence, enrollments: Enrollments, x: Dossier)
    returns (participant: Identity)
    requires i < |c.records| && HeadVerified(w, root, d, c, i, e, enrollments)
    requires OpenDossier(w, root, c.records[i], e) == Some(x)
    ensures e.acceptedHeadId == c.records[i].recordId && e.predecessorHeadId == c.records[i].previousRecordId
    ensures participant in d.roster
    ensures i < |d.Policy(c.phase).participants| && participant.id == d.Policy(c.phase).participants[i]
    ensures var r := c.records[i];
            && SignedDocument(w, root, e.chainPrefix, ChainDoc(c.Prefix(i + 1)), d.coordinator)
            && SignedDocument(w, root, SignedRefs(r.attestation, r.attestationSignature), AttestationDoc(x.attestation), participant)
            && SignedDocument(w, root, SignedRefs(r.erasure, r.erasureSignature), ErasureDoc(x.erasure), participant)
            && Acceptable(w.oracles, d, c.Prefix(i), x.attestation, x.erasure, r)
            && Delivered(w, d, c.phase, x.outbound, x.outboundReceipt, r, d.coordinator, participant)
            && x.outbound.files == [r.previousPayload]
            && Delivered(w, d, c.phase, x.homebound, x.homeboundReceipt, r, participant, d.coordinator)
            && (forall f :: f in x.homebound.files <==>
                  f in {r.attestation, r.attestationSignature, r.erasure, r.erasureSignature, r.outputPayload})
            && x.verification.outputPayload == r.outputPayload && x.verification.previousPayload == r.previousPayload
            && x.verification.attestationId == r.attestationId && x.verification.erasureId == r.erasureId
            && x.verification.participantId == r.participantId && x.verification.previousRecordId == r.previousRecordId
            && x.verification.index == r.index && x.verification.verifiedAt == r.acceptedAt
  {
    hide Acceptable, MirrorsHold, SignedBy, MirrorFiles, ReturnFiles, LoadChain, LoadAttestation, LoadErasure,
      LoadVerification, LoadHandoff, LoadReceipt, ValidHandoff, ValidReceipt, ActorById, FirstWithId;
    var r := c.records[i];
    participant := ScheduledParticipant(d, c.phase, i).value;
    FirstWithIdIsMember(d.roster, d.Policy(c.phase).participants[i]);
    LoadedAre(w, root, e.chainPrefix.record, r.attestation, r.erasure);
    SignedDocumentLoads(w, root, e.chainPrefix, ChainDoc(c.Prefix(i + 1)), d.coordinator);
    SignedDocumentLoads(w, root, SignedRefs(r.attestation, r.attestationSignature), AttestationDoc(x.attestation), participant);
    SignedDocumentLoads(w, root, SignedRefs(r.erasure, r.erasureSignature), ErasureDoc(x.erasure), participant);
    SignersAreRecipients(w, x.outboundReceipt);
    SignersAreRecipients(w, x.homeboundReceipt);
    ReturnFilesAre(r);
  }

  /** The coordinator signed what went out and the receipt of what came back; the participant the other two. */
  lemma TransfersAreSigned(
    w: World, root: Root, d: Definition, c: Chain, i: nat, e: HeadEvidence, enrollments: Enrollments, x: Dossier,
    participant: Identity)
    requires i < |c.records| && HeadVerified(w, root, d, c, i, e, enrollments)
    requires OpenDossier(w, root, c.records[i], e) == Some(x)
    requires ScheduledParticipant(d, c.phase, i) == Some(participant)
    ensures SignedDocument(w, root, e.outboundHandoff, HandoffDoc(x.outbound), d.coordinator)
    ensures SignedDocument(w, root, e.outboundReceipt, ReceiptDoc(x.outboundReceipt), participant)
    ensures SignedDocument(w, root, e.returnHandoff, HandoffDoc(x.homebound), participant)
    ensures SignedDocument(w, root, e.returnReceipt, ReceiptDoc(x.homeboundReceipt), d.coordinator)
  {
    hide MirrorsHold, SignedBy, MirrorFiles, ReturnFiles, LoadChain, LoadAttestation, LoadErasure, ErasureBinds,
      LoadVerification, LoadHandoff, LoadReceipt, ValidHandoff, ValidReceipt, ActorById, HandledInOrder, SignedDocument,
      ValidDefinition, Binds, Timely, ValidAgainstDefinition, ValidRecord, ValidAttestation, ParticipantById;
    FoundAmongActors(w.oracles, d, c.phase, i, participant);
    SignersAreRecipients(w, x.outboundReceipt);
    SignersAreRecipients(w, x.homeboundReceipt);
    TransfersLoad(w, root, e.outboundHandoff.record, e.outboundReceipt.record);
    TransfersLoad(w, root, e.returnHandoff.record, e.returnReceipt.record);
    SignedDocumentLoads(w, root, e.outboundHandoff, HandoffDoc(x.outbound), d.coordinator);
    SignedDocumentLoads(w, root, e.outboundReceipt, ReceiptDoc(x.outboundReceipt), participant);
    SignedDocumentLoads(w, root, e.returnHandoff, HandoffDoc(x.homebound), participant);
    SignedDocumentLoads(w, root, e.returnReceipt, ReceiptDoc(x.homeboundReceipt), d.coordinator);
  }

  lemma FoundAmongActors(o: Oracles, d: Definition, phase: Phase, i: nat, participant: Identity)
    requires ValidDefinition(o, d) && ScheduledParticipant(d, phase, i) == Some(participant)
    ensures ActorById(d, d.coordinator.id) == Some(d.coordinator)
    ensures ActorById(d, participant.id) == Some(participant)
  {
    hide FirstWithId;
    FirstWithIdIsMember(d.roster, d.Policy(phase).participants[i]);
    var k :| 0 <= k < |d.roster| && d.roster[k] == participant;
    assert Actors(d)[0] == d.coordinator && Actors(d)[2 + |d.auditors| + k] == participant;
    LookupFinds(Actors(d), 0);
    LookupFinds(Actors(d), 2 + |d.auditors| + k);
  }

  lemma TransfersLoad(w: World, root: Root, handoff: ArtifactRef, receipt: ArtifactRef)
    ensures LoadHandoff(w, root, handoff).Some? ==>
              Load(w, root, handoff) == Some(HandoffDoc(LoadHandoff(w, root, handoff).value))
    ensures LoadReceipt(w, root, receipt).Some? ==>
              Load(w, root, receipt) == Some(ReceiptDoc(LoadReceipt(w, root, receipt).value))
  {
    hide Load;
  }

  lemma LoadedAre(w: World, root: Root, chain: ArtifactRef, attestation: ArtifactRef, erasure: ArtifactRef)
    ensures LoadChain(w, root, chain).Some? ==>
              Load(w, root, chain) == Some(ChainDoc(LoadChain(w, root, chain).value))
    ensures LoadAttestation(w, root, attestation).Some? ==>
              Load(w, root, attestation) == Some(AttestationDoc(LoadAttestation(w, root, attestation).value))
    ensures LoadErasure(w, root, erasure).Some? ==>
              Load(w, root, erasure) == Some(ErasureDoc(LoadErasure(w, root, erasure).value))
  {
    hide Load;
  }

  lemma SignersAreRecipients(w: World, r: Receipt)
    ensures ValidReceipt(w, r) ==>
              && r.signerId == r.recipientId && r.signerKeyId == r.recipientKeyId
              && r.senderId != r.recipientId && r.senderKeyId != r.recipientKeyId
  {
  }

  lemma ReturnFilesAre(r: ChainRecord)
    ensures forall f :: f in ReturnFiles(r) <==>
              f in {r.attestation, r.attestationSignature, r.erasure, r.erasureSignature, r.outputPayload}
  {
    References.SortedRefsSorts([r.attestation, r.attestationSignature, r.erasure, r.erasureSignature, r.outputPayload]);
  }

  /** What a mirror receipt of a verified head says: exactly the eight files of this head, stored after acceptance. */
  lemma MirrorStates(
    w: World, root: Root, d: Definition, phase: Phase, r: ChainRecord, e: HeadEvidence, enrollments: Enrollments,
    refs: SignedRefs, m: MirrorReceipt)
    requires OpenMirror(w, root, d, phase, r, e, enrollments, refs) == Some(m)
    ensures SignedDocument(w, root, refs, MirrorDoc(m), m.mirror)
    ensures m.ceremonyId == d.ceremonyId && m.phase == phase
    ensures m.index == r.index && m.acceptedHeadId == e.acceptedHeadId && r.acceptedAt < m.storedAt
    ensures forall f :: f in m.files <==>
              f in {r.attestation, r.attestationSignature, r.erasure, r.erasureSignature, r.outputPayload,
                    r.verification, e.chainPrefix.record, e.chainPrefix.signature}
    ensures m.mirror.id in enrollments && enrollments[m.mirror.id].identity == m.mirror
    ensures enrollments[m.mirror.id].role == MirrorRole
  {
    ReturnFilesAre(r);
    References.SortedRefsSorts(ReturnFiles(r) + [r.verification, e.chainPrefix.record, e.chainPrefix.signature]);
  }

  // ----- The timeline -----

  ghost predicate StrictlyIncreasing(times: seq<Instant>) {
    forall i, j | 0 <= i < j < |times| :: times[i] < times[j]
  }

  /** Sent out, received, contributed, destroyed, sent back, received back, accepted. */
  function HeadTimes(x: Dossier, r: ChainRecord): (times: seq<Instant>)
    ensures |times| == 7
  {
    [x.outbound.createdAt, x.outboundReceipt.receivedAt, x.attestation.contributedAt, x.erasure.destroyedAt,
     x.homebound.createdAt, x.homeboundReceipt.receivedAt, r.acceptedAt]
  }

  /** The dossiers of all heads. */
  ghost predicate Dossiers(w: World, root: Root, c: Chain, heads: seq<HeadEvidence>, xs: seq<Dossier>) {
    && |xs| == |heads| == |c.records|
    && forall i | 0 <= i < |xs| :: OpenDossier(w, root, c.records[i], heads[i]) == Some(xs[i])
  }

  /** Creation of the definition and then the events of the first `count` heads, in chain order. */
  ghost function Timeline(d: Definition, c: Chain, xs: seq<Dossier>, count: nat): (times: seq<Instant>)
    requires count <= |c.records| == |xs|
    ensures |times| == 1 + 7 * count
    ensures times[|times| - 1] == PredecessorTime(d, c, count)
  {
    if count == 0 then [d.createdAt]
    else Timeline(d, c, xs, count - 1) + HeadTimes(xs[count - 1], c.records[count - 1])
  }

  lemma HeadTimesIncrease(
    w: World, root: Root, d: Definition, c: Chain, i: nat, e: HeadEvidence, enrollments: Enrollments, x: Dossier)
    requires i < |c.records| && HeadVerified(w, root, d, c, i, e, enrollments)
    requires OpenDossier(w, root, c.records[i], e) == Some(x)
    ensures StrictlyIncreasing([PredecessorTime(d, c, i)] + HeadTimes(x, c.records[i]))
  {
    hide OpenDossier, Acceptable, BoundHandoff, BoundReceipt, Acknowledges, SignedBy, MirrorsHold, Carries;
    assert ErasureBinds(w.oracles, x.attestation, x.erasure);
    assert HandledInOrder(PredecessorTime(d, c, i), x, c.records[i]);
  }

  lemma ConcatIncreases(front: seq<Instant>, back: seq<Instant>)
    requires front != [] && StrictlyIncreasing(front)
    requires StrictlyIncreasing([front[|front| - 1]] + back)
    ensures StrictlyIncreasing(front + back)
  {
    var joint, last := front + back, [front[|front| - 1]] + back;
    forall i, j | 0 <= i < j < |joint| ensures joint[i] < joint[j] {
      if j >= |front| {
        assert joint[j] == last[j - |front| + 1];
        assert last[0] < last[j - |front| + 1];
        if i >= |front| {
          assert joint[i] == last[i - |front| + 1];
        }
      }
    }
  }

  /** One strict timeline runs through all heads of a verified phase. */
  lemma {:induction false} TimelineIncreases(
    w: World, root: Root, d: Definition, c: Chain, heads: seq<HeadEvidence>, enrollments: Enrollments,
    xs: seq<Dossier>, count: nat)
    requires HeadsVerified(w, root, d, c, heads, enrollments) && Dossiers(w, root, c, heads, xs)
    requires count <= |heads|
    ensures StrictlyIncreasing(Timeline(d, c, xs, count))
  {
    hide HeadVerified, OpenDossier;
    if count > 0 {
      var i := count - 1;
      TimelineIncreases(w, root, d, c, heads, enrollments, xs, i);
      assert HeadVerdict(w, root, d, c, heads, enrollments)(i);
      HeadTimesIncrease(w, root, d, c, i, heads[i], enrollments, xs[i]);
      ConcatIncreases(Timeline(d, c, xs, i), HeadTimes(xs[i], c.records[i]));
    }
  }
}
