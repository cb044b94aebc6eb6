/** Accepting a contribution: the attestation, its erasure, and the record that extends the chain. */
module Acceptances {
  import opened Common
  import opened Records
  import opened Definitions
  import opened Chains

  predicate ErasureBinds(o: Oracles, a: Attestation, e: Erasure) {
    && ValidAttestation(o, a)
    && ValidErasure(o, e)
    && e.ceremonyId == a.ceremonyId && e.phase == a.phase && e.phaseId == a.phaseId && e.index == a.index
    && e.participantId == a.participantId && e.participantKeyId == a.participantKeyId
    && e.contributionAttestationId == a.attestationId
    && e.outputPayload == a.outputPayload
    && e.destroyedAt > a.contributedAt
  }

  /** `r` is the next child of the chain's head and states exactly what `a` and `e` attest. */
  predicate Binds(o: Oracles, c: Chain, a: Attestation, e: Erasure, r: ChainRecord) {
    var n := |c.records|;
    var next := (n + 1) % 0x100;
    && r.index == next && a.index == next
    && r.previousPayload == HeadPayload(c, n) == a.previousPayload
    && r.previousRecordId == HeadId(o, c, n) == a.previousAcceptanceId
    && r.ceremonyId == a.ceremonyId && r.phase == a.phase && r.phaseId == a.phaseId
    && r.participantId == a.participantId
    && r.outputPayload == a.outputPayload
    && r.attestationId == a.attestationId && r.erasureId == e.erasureId
  }

  predicate Timely(d: Definition, c: Chain, a: Attestation, e: Erasure, r: ChainRecord) {
    && a.contributedAt > d.createdAt
    && (c.records != [] ==> a.contributedAt > c.records[|c.records| - 1].acceptedAt)
    && r.acceptedAt > e.destroyedAt
  }

  /** ValidateAttestationAcceptance. */
  predicate Acceptable(o: Oracles, d: Definition, c: Chain, a: Attestation, e: Erasure, r: ChainRecord) {
    && ValidDefinition(o, d)
    && ValidAgainstDefinition(o, c, d)
    && ValidAttestation(o, a)
    && ErasureBinds(o, a, e)
    && ValidRecord(o, r)
    && Binds(o, c, a, e, r)
    && ParticipantById(d, a.participantId).Some?
    && ParticipantById(d, a.participantId).value.keyId == a.participantKeyId
    && d.software == a.software
    && Timely(d, c, a, e, r)
  }

  /** What ValidateAttestationAcceptance leaves to its caller. */
  predicate NextInSchedule(d: Definition, c: Chain, r: ChainRecord) {
    var policy := d.Policy(c.phase);
    && r.ceremonyId == c.ceremonyId && r.phase == c.phase && r.phaseId == c.phaseId
    && r.coordinatorId == d.coordinator.id && r.coordinatorKeyId == d.coordinator.keyId
    && |c.records| < |policy.participants| && r.participantId == policy.participants[|c.records|]
  }

  /**
   An acceptable record extends the chain to one that still fits the definition exactly when it carries the
   chain's identity and the coordinator's, and names the next scheduled participant.
   */
  lemma AcceptableIsAppendable(o: Oracles, d: Definition, c: Chain, a: Attestation, e: Erasure, r: ChainRecord)
    requires Acceptable(o, d, c, a, e, r)
    ensures ValidAgainstDefinition(o, c.Extend(r), d) <==> NextInSchedule(d, c, r)
  {
    var longer, n := c.Extend(r), |c.records|;
    assert longer.records[n] == r;
    ExtendValid(o, c, r);
    if NextInSchedule(d, c, r) {
      assert n < MAX_PARTICIPANTS;
      assert Linked(o, longer, n) by {
        assert HeadPayload(longer, n) == HeadPayload(c, n);
        assert HeadId(o, longer, n) == HeadId(o, c, n);
        forall j | 0 <= j < n ensures longer.records[j].participantId != r.participantId {
          assert Scheduled(d, c.phase, c.records[j], j);
        }
      }
      assert ValidPolicy(d.Policy(c.phase), d.roster);
      assert Enrolled(r.participantId, d.roster);
      forall i | 0 <= i < |longer.records|
        ensures Scheduled(d, c.phase, longer.records[i], i)
      {
        if i < n {
          assert longer.records[i] == c.records[i];
          assert Scheduled(d, c.phase, c.records[i], i);
        }
      }
    }
    if ValidAgainstDefinition(o, longer, d) {
      assert Linked(o, longer, n);
      assert Scheduled(d, c.phase, longer.records[n], n);
    }
  }

  /**
   What an acceptable record says: it starts from the chain's last output, and its participant, who is enrolled under
   the signing key, attests the very payload it carries and the erasure that goes with it.
   */
  lemma AcceptanceStates(o: Oracles, d: Definition, c: Chain, a: Attestation, e: Erasure, r: ChainRecord)
    requires Acceptable(o, d, c, a, e, r)
    ensures c.records == [] ==>
              r.previousPayload == c.genesis && r.previousRecordId == o.hash(Genesis(c.ceremonyId, c.phaseId, c.genesis))
    ensures c.records != [] ==>
              var last := c.records[|c.records| - 1];
              r.previousPayload == last.outputPayload && r.previousRecordId == last.recordId
    ensures a.previousPayload == r.previousPayload && a.previousAcceptanceId == r.previousRecordId
    ensures r.index == |c.records| + 1 == a.index == e.index
    ensures r.outputPayload == a.outputPayload == e.outputPayload
    ensures r.participantId == a.participantId == e.participantId && a.participantKeyId == e.participantKeyId
    ensures exists p <- d.roster :: p.id == r.participantId && p.keyId == a.participantKeyId
    ensures r.ceremonyId == a.ceremonyId == e.ceremonyId
    ensures r.phase == a.phase == e.phase && r.phaseId == a.phaseId == e.phaseId
    ensures r.attestationId == a.attestationId == e.contributionAttestationId && r.erasureId == e.erasureId
    ensures a.software == d.software
    ensures a.attestationId == o.hash(Contribution(a.(attestationId := "")))
    ensures e.erasureId == o.hash(Destruction(e.(erasureId := "")))
    ensures r.recordId == o.hash(Acceptance(r.(recordId := "")))
    ensures r.outputPayload.digest.sha256 != r.previousPayload.digest.sha256
  {
    FirstWithIdIsMember(d.roster, a.participantId);
    assert |c.records| <= 20;
  }

  /** Creation, contribution, destruction and acceptance follow one another strictly, after the previous acceptance. */
  lemma AcceptanceTimes(o: Oracles, d: Definition, c: Chain, a: Attestation, e: Erasure, r: ChainRecord)
    requires Acceptable(o, d, c, a, e, r)
    ensures d.createdAt < a.contributedAt < e.destroyedAt < r.acceptedAt
    ensures c.records != [] ==> c.records[|c.records| - 1].acceptedAt < a.contributedAt
  {
  }

  /** Re-checking a stored chain's step sees what the coordinator saw when it appended that record. */
  lemma StoredStepWasAppended(o: Oracles, d: Definition, c: Chain, a: Attestation, e: Erasure, i: nat)
    requires ValidAgainstDefinition(o, c, d) && i < |c.records|
    requires Acceptable(o, d, c.Prefix(i), a, e, c.records[i])
    ensures NextInSchedule(d, c.Prefix(i), c.records[i])
    ensures AfterAppend(o, c.Prefix(i), c.records[i]) == c.Prefix(i + 1)
  {
    var before, after, record := c.Prefix(i), c.Prefix(i + 1), c.records[i];
    assert before.Extend(record) == after;
    PrefixValidAgainstDefinition(o, c, d, i + 1);
    AcceptableIsAppendable(o, d, before, a, e, record);
    assert ValidChain(o, after);
  }
}
