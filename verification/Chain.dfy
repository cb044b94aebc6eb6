/** The hash-linked acceptance chain: validation, append, reachability, and what its head id commits to. */
module Chains {
  import opened Common
  import opened Records
  import opened Definitions

  function EmptyChain(ceremonyId: Id, phase: Phase, phaseId: Id, genesis: ArtifactRef): Chain {
    Chain(ceremonyId, phase, phaseId, genesis, [])
  }

  /** The payload and record id that record `i` must extend. */
  function HeadPayload(c: Chain, i: nat): ArtifactRef
    requires i <= |c.records|
  {
    if i == 0 then c.genesis else c.records[i - 1].outputPayload
  }

  function HeadId(o: Oracles, c: Chain, i: nat): Id
    requires i <= |c.records|
  {
    if i == 0 then o.hash(Genesis(c.ceremonyId, c.phaseId, c.genesis)) else c.records[i - 1].recordId
  }

  predicate Linked(o: Oracles, c: Chain, i: nat)
    requires i < |c.records|
  {
    var r := c.records[i];
    && ValidRecord(o, r)
    && (i > 0 ==> c.records[i - 1].acceptedAt < r.acceptedAt)
    && r.ceremonyId == c.ceremonyId && r.phase == c.phase && r.phaseId == c.phaseId
    && r.index == i + 1
    && r.previousPayload == HeadPayload(c, i)
    && r.previousRecordId == HeadId(o, c, i)
    && forall j | 0 <= j < i :: c.records[j].participantId != r.participantId
  }

  predicate ValidChain(o: Oracles, c: Chain) {
    && o.formatted(Genesis(c.ceremonyId, c.phaseId, c.genesis))
    && |c.records| <= MAX_PARTICIPANTS
    && forall i | 0 <= i < |c.records| :: Linked(o, c, i)
  }

  datatype ChainFault = BadHeader | TooLong | BadRecord(index: nat)

  /** Accepts exactly the valid chains; a refused record is the first one that breaks the chain. */
  method ValidateChain(o: Oracles, c: Chain) returns (fault: Option<ChainFault>)
    ensures fault.None? <==> ValidChain(o, c)
    ensures fault.Some? && fault.value.BadRecord? ==>
              var i := fault.value.index;
              i < |c.records| && ValidChain(o, c.Prefix(i)) && !ValidChain(o, c.Prefix(i + 1))
  {
    if !o.formatted(Genesis(c.ceremonyId, c.phaseId, c.genesis)) {
      return Some(BadHeader);
    }
    if |c.records| > MAX_PARTICIPANTS {
      return Some(TooLong);
    }
    var previousPayload := c.genesis;
    var previousRecordId := o.hash(Genesis(c.ceremonyId, c.phaseId, c.genesis));
    var participants: set<Id> := {};
    var previousAcceptedAt: Instant := 0;
    for i := 0 to |c.records|
      invariant previousPayload == HeadPayload(c, i) && previousRecordId == HeadId(o, c, i)
      invariant i > 0 ==> previousAcceptedAt == c.records[i - 1].acceptedAt
      invariant participants == set j | 0 <= j < i :: c.records[j].participantId
      invariant forall j | 0 <= j < i :: Linked(o, c, j)
    {
      var r := c.records[i];
      var ok := ValidRecord(o, r);
      ok := ok && (i == 0 || r.acceptedAt > previousAcceptedAt);
      ok := ok && r.ceremonyId == c.ceremonyId && r.phase == c.phase && r.phaseId == c.phaseId;
      ok := ok && r.index == i + 1;
      ok := ok && r.previousPayload == previousPayload;
      ok := ok && r.previousRecordId == previousRecordId;
      ok := ok && r.participantId !in participants;
      assert ok <==> Linked(o, c, i);
      if !ok {
        PrefixLinks(o, c, i);
        PrefixLinks(o, c, i + 1);
        return Some(BadRecord(i));
      }
      participants := participants + {r.participantId};
      previousPayload := r.outputPayload;
      previousRecordId := r.recordId;
      previousAcceptedAt := r.acceptedAt;
    }
    fault := None;
  }

  lemma PrefixLinks(o: Oracles, c: Chain, count: nat)
    requires count <= |c.records|
    ensures forall i | 0 <= i < count :: Linked(o, c.Prefix(count), i) <==> Linked(o, c, i)
  {
    forall i | 0 <= i < count ensures Linked(o, c.Prefix(count), i) <==> Linked(o, c, i) {
      assert HeadPayload(c.Prefix(count), i) == HeadPayload(c, i);
      assert HeadId(o, c.Prefix(count), i) == HeadId(o, c, i);
    }
  }

  /** Every prefix of a valid chain is valid. */
  lemma PrefixValid(o: Oracles, c: Chain, count: nat)
    requires ValidChain(o, c) && count <= |c.records|
    ensures ValidChain(o, c.Prefix(count))
  {
    PrefixLinks(o, c, count);
  }

  lemma ExtendValid(o: Oracles, c: Chain, r: ChainRecord)
    ensures ValidChain(o, c.Extend(r)) <==>
            && ValidChain(o, c) && |c.records| < MAX_PARTICIPANTS
            && Linked(o, c.Extend(r), |c.records|)
  {
    assert c.Extend(r).Prefix(|c.records|) == c;
    PrefixLinks(o, c.Extend(r), |c.records|);
  }

  /** Acceptance times grow and participants differ along the whole chain, not only between neighbours. */
  lemma {:induction false} ChainOrder(o: Oracles, c: Chain, i: nat, j: nat)
    requires ValidChain(o, c) && i < j < |c.records|
    ensures c.records[i].acceptedAt < c.records[j].acceptedAt
    ensures c.records[i].participantId != c.records[j].participantId
    decreases j
  {
    assert Linked(o, c, j);
    if i < j - 1 {
      ChainOrder(o, c, i, j - 1);
    }
  }

  /** Record `i` continues the one before it: its payload, its id and its place. */
  predicate Continues(o: Oracles, c: Chain, i: nat)
    requires i < |c.records|
  {
    var r := c.records[i];
    && r.ceremonyId == c.ceremonyId && r.phase == c.phase && r.phaseId == c.phaseId
    && r.index == i + 1 <= 20
    && (i == 0 ==> r.previousPayload == c.genesis)
    && (i == 0 ==> r.previousRecordId == o.hash(Genesis(c.ceremonyId, c.phaseId, c.genesis)))
    && (i > 0 ==> r.previousPayload == c.records[i - 1].outputPayload)
    && (i > 0 ==> r.previousRecordId == c.records[i - 1].recordId)
    && (i > 0 ==> c.records[i - 1].acceptedAt < r.acceptedAt)
    && r.outputPayload.digest.sha256 != r.previousPayload.digest.sha256
    && o.formatted(Acceptance(r.(recordId := "")))
    && r.recordId == o.hash(Acceptance(r.(recordId := "")))
    && (forall j | 0 <= j < i :: c.records[j].participantId != r.participantId)
  }

  /**
   A chain is valid exactly when its genesis is well formed and each of at most twenty records starts from the output
   of the one before it, names it, and is the first of its participant.
   */
  lemma ValidIffContinuous(o: Oracles, c: Chain)
    ensures ValidChain(o, c) <==>
            && o.formatted(Genesis(c.ceremonyId, c.phaseId, c.genesis)) && |c.records| <= 20
            && forall i | 0 <= i < |c.records| :: Continues(o, c, i)
  {
    forall i | 0 <= i < |c.records| && |c.records| <= 20
      ensures Linked(o, c, i) <==> Continues(o, c, i)
    {
    }
  }

  // ----- Append -----

  class AcceptedChain {
    const ceremonyId: Id
    const phase: Phase
    const phaseId: Id
    const genesis: ArtifactRef
    var records: seq<ChainRecord>

    constructor (ceremonyId: Id, phase: Phase, phaseId: Id, genesis: ArtifactRef)
      ensures Contents() == EmptyChain(ceremonyId, phase, phaseId, genesis)
    {
      this.ceremonyId, this.phase, this.phaseId, this.genesis := ceremonyId, phase, phaseId, genesis;
      records := [];
    }

    function Contents(): Chain
      reads this
    {
      Chain(ceremonyId, phase, phaseId, genesis, records)
    }

    /** Takes the record exactly when the longer chain is valid; otherwise nothing changes. */
    method Append(o: Oracles, record: ChainRecord) returns (fault: Option<ChainFault>)
      modifies this
      ensures fault.None? <==> ValidChain(o, old(Contents()).Extend(record))
      ensures Contents() == AfterAppend(o, old(Contents()), record)
      ensures fault.Some? ==> records == old(records)
      ensures fault.None? ==>
                && records == old(records) + [record]
                && record.index == |old(records)| + 1
                && record.previousPayload ==
                   (if old(records) == [] then genesis else old(records)[|old(records)| - 1].outputPayload)
                && (old(records) != [] ==> record.previousRecordId == old(records)[|old(records)| - 1].recordId)
    {
      var candidate := Chain(ceremonyId, phase, phaseId, genesis, records + [record]);
      fault := ValidateChain(o, candidate);
      ValidIffContinuous(o, candidate);
      if fault.None? {
        assert Continues(o, candidate, |records|);
        records := candidate.records;
      }
    }
  }

  ghost function AfterAppend(o: Oracles, c: Chain, record: ChainRecord): Chain {
    if ValidChain(o, c.Extend(record)) then c.Extend(record) else c
  }

  /** The chain after any sequence of attempted appends, failed ones included. */
  ghost function AfterAppends(o: Oracles, c: Chain, attempts: seq<ChainRecord>): Chain {
    if attempts == [] then c
    else AfterAppend(o, AfterAppends(o, c, attempts[..|attempts| - 1]), attempts[|attempts| - 1])
  }

  /** `c` is what some attempts made of a chain NewChain accepts. */
  ghost predicate Reachable(o: Oracles, c: Chain) {
    exists attempts: seq<ChainRecord> :: ReachedBy(o, c, attempts)
  }

  ghost predicate ReachedBy(o: Oracles, c: Chain, attempts: seq<ChainRecord>) {
    && ValidChain(o, c.Prefix(0))
    && c == AfterAppends(o, c.Prefix(0), attempts)
  }

  /** Validation accepts exactly the chains that appends can build. */
  lemma ValidIffReachable(o: Oracles, c: Chain)
    ensures ValidChain(o, c) <==> Reachable(o, c)
  {
    if ValidChain(o, c) {
      PrefixValid(o, c, 0);
      AppendsRebuild(o, c, |c.records|);
      assert c.Prefix(|c.records|) == c;
      assert c.records[..|c.records|] == c.records;
      assert ReachedBy(o, c, c.records);
    }
    forall attempts | ReachedBy(o, c, attempts) ensures ValidChain(o, c) {
      AppendsStayValid(o, c.Prefix(0), attempts);
    }
  }

  lemma {:induction false} AppendsStayValid(o: Oracles, c: Chain, attempts: seq<ChainRecord>)
    requires ValidChain(o, c)
    ensures ValidChain(o, AfterAppends(o, c, attempts))
  {
    if attempts != [] {
      AppendsStayValid(o, c, attempts[..|attempts| - 1]);
    }
  }

  lemma {:induction false} AppendsRebuild(o: Oracles, c: Chain, count: nat)
    requires ValidChain(o, c) && count <= |c.records|
    ensures AfterAppends(o, c.Prefix(0), c.records[..count]) == c.Prefix(count)
  {
    if count > 0 {
      AppendsRebuild(o, c, count - 1);
      PrefixValid(o, c, count);
      var attempts := c.records[..count];
      assert attempts[..count - 1] == c.records[..count - 1];
      assert c.Prefix(count - 1).Extend(c.records[count - 1]) == c.Prefix(count);
    }
  }

  // ----- Commitment -----

  /**
   Two valid chains with the same head id agree on everything but, when empty, the phase:
   the genesis id of an empty chain does not cover it.
   */
  lemma {:induction false} HeadCommits(o: Oracles, c: Chain, d: Chain)
    requires CollisionFree(o) && ValidChain(o, c) && ValidChain(o, d)
    requires HeadId(o, c, |c.records|) == HeadId(o, d, |d.records|)
    ensures c.(phase := d.phase) == d
    ensures c.records != [] ==> c == d
    decreases |c.records|
  {
    var m, n := |c.records|, |d.records|;
    assert m > 0 ==> Linked(o, c, m - 1);
    assert n > 0 ==> Linked(o, d, n - 1);
    if m > 0 && n > 0 {
      var r, s := c.records[m - 1], d.records[n - 1];
      assert Acceptance(r.(recordId := "")) == Acceptance(s.(recordId := ""));
      assert r == r.(recordId := "").(recordId := r.recordId) == s;
      PrefixValid(o, c, m - 1);
      PrefixValid(o, d, n - 1);
      HeadCommits(o, c.Prefix(m - 1), d.Prefix(n - 1));
      assert c.records == c.Prefix(m - 1).records + [r];
      assert d.records == d.Prefix(n - 1).records + [s];
    }
  }

  /** Before its first record a chain's phase is free: only the phase id, hashed with the phase, pins it down. */
  lemma EmptyHeadOmitsPhase(o: Oracles, ceremonyId: Id, phaseId: Id, genesis: ArtifactRef)
    requires o.formatted(Genesis(ceremonyId, phaseId, genesis))
    ensures var c, d := EmptyChain(ceremonyId, Phase1, phaseId, genesis), EmptyChain(ceremonyId, Phase2, phaseId, genesis);
            c != d && ValidChain(o, c) && ValidChain(o, d) && HeadId(o, c, 0) == HeadId(o, d, 0)
  {
    var c, d := EmptyChain(ceremonyId, Phase1, phaseId, genesis), EmptyChain(ceremonyId, Phase2, phaseId, genesis);
    assert c.phase != d.phase;
  }

  // ----- Against the definition -----

  function PhaseId(o: Oracles, ceremonyId: Id, phase: Phase, genesis: ArtifactRef, parentSealId: Id): Id {
    o.hash(PhaseRoot(ceremonyId, phase, genesis, parentSealId))
  }

  predicate Scheduled(d: Definition, phase: Phase, r: ChainRecord, i: nat) {
    var policy := d.Policy(phase);
    && i < |policy.participants|
    && r.participantId == policy.participants[i]
    && Enrolled(r.participantId, d.roster)
    && r.coordinatorId == d.coordinator.id && r.coordinatorKeyId == d.coordinator.keyId
  }

  predicate ValidAgainstDefinition(o: Oracles, c: Chain, d: Definition) {
    && ValidChain(o, c)
    && ValidDefinition(o, d)
    && c.ceremonyId == d.ceremonyId
    && (c.phase.Phase1? ==>
          && o.formatted(PhaseRoot(d.ceremonyId, Phase1, d.phase1Genesis, ""))
          && c.genesis == d.phase1Genesis
          && c.phaseId == PhaseId(o, d.ceremonyId, Phase1, d.phase1Genesis, ""))
    && forall i | 0 <= i < |c.records| :: Scheduled(d, c.phase, c.records[i], i)
  }

  lemma PrefixValidAgainstDefinition(o: Oracles, c: Chain, d: Definition, count: nat)
    requires ValidAgainstDefinition(o, c, d) && count <= |c.records|
    ensures ValidAgainstDefinition(o, c.Prefix(count), d)
  {
    PrefixValid(o, c, count);
  }
}
