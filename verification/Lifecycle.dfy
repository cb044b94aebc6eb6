/**
 From definition to Phase 2: closing a chain, its public beacon, the seal that opens the next phase,
 and what one head id pins down about all of it.
 */
module Lifecycle {
  import opened Common
  import opened Records
  import opened Definitions
  import opened Chains
  import Order

  // ----- Beacon schedule -----

  const QUICKNET_GENESIS: int := 1692803367
  const QUICKNET_PERIOD: int := 3
  const MAX_INT64: int := TWO_TO_THE_63 - 1

  /** Scheduled publication of a round in Unix seconds. */
  function QuicknetRoundSeconds(round: U64): Option<int> {
    if round == 0 then None
    else
      var offset := round - 1;
      if offset > (MAX_INT64 - QUICKNET_GENESIS) / QUICKNET_PERIOD then None
      else Some(QUICKNET_GENESIS + (offset * QUICKNET_PERIOD) % TWO_TO_THE_64)
  }

  function RoundTime(round: U64): Option<Instant> {
    match QuicknetRoundSeconds(round)
    case None => None
    case Some(seconds) => Some(seconds * SECOND)
  }

  /** The guard is exact: a round is refused just when its second would leave int64, and rounds never share one. */
  lemma RoundSchedule(r: U64, s: U64)
    ensures QuicknetRoundSeconds(r).Some? <==>
            r >= 1 && QUICKNET_GENESIS + (r - 1) * QUICKNET_PERIOD <= MAX_INT64
    ensures QuicknetRoundSeconds(r).Some? ==>
              QuicknetRoundSeconds(r).value == QUICKNET_GENESIS + (r - 1) * QUICKNET_PERIOD
    ensures QuicknetRoundSeconds(r).Some? && QuicknetRoundSeconds(s).Some? ==>
              (r < s <==> QuicknetRoundSeconds(r).value < QuicknetRoundSeconds(s).value)
  {
  }

  // ----- Closing, beacon, seal -----

  predicate ValidCloseRecord(o: Oracles, r: CloseRecord) {
    && 1 <= r.finalIndex <= MAX_PARTICIPANTS
    && r.finalIndex == |r.acceptedParticipants|
    && Order.Distinct(r.acceptedParticipants)
    && r.beaconRound != 0
    && r.beaconNotBefore > r.closedAt
    && RoundTime(r.beaconRound) == Some(r.beaconNotBefore)
    && SelfIdentified(o, Closing(r.(closeId := "")), r.closeId)
  }

  function ParticipantIds(c: Chain): (ids: seq<Id>)
    ensures |ids| == |c.records|
  {
    seq(|c.records|, i requires 0 <= i < |c.records| => c.records[i].participantId)
  }

  predicate ValidClose(o: Oracles, d: Definition, c: Chain, close: CloseRecord) {
    var n, policy := |c.records|, d.Policy(c.phase);
    && ValidAgainstDefinition(o, c, d)
    && ValidCloseRecord(o, close)
    && (d.mode.Production? ==> n == |policy.participants|)
    && (d.mode.Rehearsal? ==> n >= policy.minimum)
    && close.ceremonyId == c.ceremonyId && close.phase == c.phase && close.phaseId == c.phaseId
    && close.finalIndex == n && close.finalPayload == HeadPayload(c, n) && close.chainHeadId == HeadId(o, c, n)
    && close.acceptedParticipants == ParticipantIds(c)
    && close.beaconProvider == d.beaconPolicy.provider && close.beaconNetwork == d.beaconPolicy.network
    && close.coordinatorId == d.coordinator.id && close.coordinatorKeyId == d.coordinator.keyId
    && close.closedAt > d.createdAt
    && (n > 0 ==> close.closedAt > c.records[n - 1].acceptedAt)
    && close.beaconNotBefore - close.closedAt >= d.beaconPolicy.minimumLeadSeconds * SECOND
  }

  predicate ValidBeaconRecord(o: Oracles, b: BeaconRecord) {
    && b.round != 0
    && b.challenge == o.challenge(b.closeId, b.provider, b.network, b.round, b.randomness)
    && SelfIdentified(o, Beacon(b.(beaconId := "")), b.beaconId)
  }

  predicate ValidBeacon(o: Oracles, d: Definition, close: CloseRecord, b: BeaconRecord) {
    && ValidDefinition(o, d)
    && ValidCloseRecord(o, close)
    && ValidBeaconRecord(o, b)
    && close.ceremonyId == d.ceremonyId
    && close.beaconProvider == d.beaconPolicy.provider && close.beaconNetwork == d.beaconPolicy.network
    && b.ceremonyId == close.ceremonyId && b.phase == close.phase && b.phaseId == close.phaseId
    && b.closeId == close.closeId
    && b.provider == close.beaconProvider && b.network == close.beaconNetwork && b.round == close.beaconRound
    && b.publishedAt >= close.beaconNotBefore
  }

  predicate ValidSealRecord(o: Oracles, s: SealRecord) {
    SelfIdentified(o, Sealing(s.(sealId := "")), s.sealId)
  }

  predicate ValidSeal(o: Oracles, close: CloseRecord, b: BeaconRecord, s: SealRecord) {
    && ValidCloseRecord(o, close)
    && ValidBeaconRecord(o, b)
    && ValidSealRecord(o, s)
    && s.ceremonyId == close.ceremonyId && s.phase == close.phase && s.phaseId == close.phaseId
    && s.closeId == close.closeId && s.beaconId == b.beaconId && s.finalPayload == close.finalPayload
    && s.sealedAt >= b.publishedAt
  }

  // ----- A loaded replay -----

  datatype LoadedReplay = LoadedReplay(
    definition: Definition,
    phase1Chain: Chain, phase1Close: CloseRecord, phase1Beacon: BeaconRecord, phase1Seal: SealRecord,
    phase2Chain: Chain, phase2Close: CloseRecord, phase2Beacon: BeaconRecord)

  /** validateReplayRecords. */
  predicate ValidReplay(o: Oracles, r: LoadedReplay) {
    var d, c1, c2 := r.definition, r.phase1Chain, r.phase2Chain;
    && ValidAgainstDefinition(o, c1, d)
    && c1.phase.Phase1? && c1.genesis == d.phase1Genesis
    && c1.phaseId == PhaseId(o, d.ceremonyId, Phase1, d.phase1Genesis, "")
    && ValidClose(o, d, c1, r.phase1Close)
    && ValidBeacon(o, d, r.phase1Close, r.phase1Beacon)
    && ValidSeal(o, r.phase1Close, r.phase1Beacon, r.phase1Seal)
    && ValidAgainstDefinition(o, c2, d)
    && c2.phase.Phase2?
    && o.formatted(PhaseRoot(d.ceremonyId, Phase2, c2.genesis, r.phase1Seal.sealId))
    && c2.phaseId == PhaseId(o, d.ceremonyId, Phase2, c2.genesis, r.phase1Seal.sealId)
    && ValidClose(o, d, c2, r.phase2Close)
    && ValidBeacon(o, d, r.phase2Close, r.phase2Beacon)
    && r.phase1Beacon.challenge.sha256 != r.phase2Beacon.challenge.sha256
    && !(r.phase1Beacon.provider == r.phase2Beacon.provider
         && r.phase1Beacon.network == r.phase2Beacon.network
         && r.phase1Beacon.round == r.phase2Beacon.round)
  }

  lemma CloseCommits(o: Oracles, d: Definition, c: Chain, x: CloseRecord, c': Chain, x': CloseRecord)
    requires CollisionFree(o) && ValidClose(o, d, c, x) && ValidClose(o, d, c', x')
    requires x.closeId == x'.closeId
    ensures x == x' && c == c'
  {
    assert Closing(x.(closeId := "")) == Closing(x'.(closeId := ""));
    assert x == x.(closeId := "").(closeId := x.closeId) == x';
    HeadCommits(o, c, c');
  }

  lemma BeaconCommits(o: Oracles, b: BeaconRecord, b': BeaconRecord)
    requires CollisionFree(o) && ValidBeaconRecord(o, b) && ValidBeaconRecord(o, b') && b.beaconId == b'.beaconId
    ensures b == b'
  {
    assert Beacon(b.(beaconId := "")) == Beacon(b'.(beaconId := ""));
    assert b == b.(beaconId := "").(beaconId := b.beaconId) == b';
  }

  lemma SealCommits(o: Oracles, s: SealRecord, s': SealRecord)
    requires CollisionFree(o) && ValidSealRecord(o, s) && ValidSealRecord(o, s') && s.sealId == s'.sealId
    ensures s == s'
  {
    assert Sealing(s.(sealId := "")) == Sealing(s'.(sealId := ""));
    assert s == s.(sealId := "").(sealId := s.sealId) == s';
  }

  /** The seal id of Phase 1 pins down Phase 1: its chain, close, beacon and seal. */
  lemma Phase1SealCommits(o: Oracles, r: LoadedReplay, t: LoadedReplay)
    requires CollisionFree(o) && ValidReplay(o, r) && ValidReplay(o, t)
    requires r.definition == t.definition && r.phase1Seal.sealId == t.phase1Seal.sealId
    ensures r.phase1Seal == t.phase1Seal && r.phase1Beacon == t.phase1Beacon
    ensures r.phase1Close == t.phase1Close && r.phase1Chain == t.phase1Chain
  {
    SealCommits(o, r.phase1Seal, t.phase1Seal);
    BeaconCommits(o, r.phase1Beacon, t.phase1Beacon);
    CloseCommits(o, r.definition, r.phase1Chain, r.phase1Close, t.phase1Chain, t.phase1Close);
  }

  /**
   One head record id of Phase 2 commits to the whole ceremony before it: two accepted replays with the same
   Phase 2 head agree on the definition, all of Phase 1 and the Phase 2 chain.
   */
  lemma Phase2HeadCommits(o: Oracles, r: LoadedReplay, t: LoadedReplay)
    requires CollisionFree(o) && ValidReplay(o, r) && ValidReplay(o, t)
    requires HeadId(o, r.phase2Chain, |r.phase2Chain.records|) == HeadId(o, t.phase2Chain, |t.phase2Chain.records|)
    ensures r.(phase2Close := t.phase2Close, phase2Beacon := t.phase2Beacon) == t
  {
    HeadCommits(o, r.phase2Chain, t.phase2Chain);
    CeremonyIdCommits(o, r.definition, t.definition);
    var p := PhaseRoot(r.definition.ceremonyId, Phase2, r.phase2Chain.genesis, r.phase1Seal.sealId);
    var q := PhaseRoot(t.definition.ceremonyId, Phase2, t.phase2Chain.genesis, t.phase1Seal.sealId);
    assert p == q;
    Phase1SealCommits(o, r, t);
  }

  /** The Phase 2 beacon id commits to everything. */
  lemma Phase2BeaconCommits(o: Oracles, r: LoadedReplay, t: LoadedReplay)
    requires CollisionFree(o) && ValidReplay(o, r) && ValidReplay(o, t)
    requires r.phase2Beacon.beaconId == t.phase2Beacon.beaconId
    ensures r == t
  {
    BeaconCommits(o, r.phase2Beacon, t.phase2Beacon);
    CeremonyIdCommits(o, r.definition, t.definition);
    CloseCommits(o, r.definition, r.phase2Chain, r.phase2Close, t.phase2Chain, t.phase2Close);
    Phase2HeadCommits(o, r, t);
  }

  /** Every closed phase runs on schedule: all acceptances, then the close, then after the signed lead the round. */
  lemma PhaseSchedule(o: Oracles, d: Definition, c: Chain, close: CloseRecord, b: BeaconRecord, i: nat, j: nat)
    requires ValidClose(o, d, c, close) && ValidBeacon(o, d, close, b)
    requires i <= j < |c.records|
    ensures |c.records| >= 1
    ensures c.records[i].acceptedAt <= c.records[j].acceptedAt < close.closedAt
    ensures close.closedAt + d.beaconPolicy.minimumLeadSeconds * SECOND <= close.beaconNotBefore <= b.publishedAt
    ensures RoundTime(b.round) == Some(close.beaconNotBefore)
    ensures c.records[i].participantId == d.Policy(c.phase).participants[i]
  {
    assert Scheduled(d, c.phase, c.records[i], i);
    var last := |c.records| - 1;
    if i < j {
      ChainOrder(o, c, i, j);
    }
    if j < last {
      ChainOrder(o, c, j, last);
    }
  }

  /** What a valid close says about the chain: its last output, its last record and who contributed. */
  lemma CloseStates(o: Oracles, d: Definition, c: Chain, close: CloseRecord)
    requires ValidClose(o, d, c, close)
    ensures var n := |c.records|;
            && n >= 1 && close.finalIndex == n
            && close.finalPayload == c.records[n - 1].outputPayload && close.chainHeadId == c.records[n - 1].recordId
            && c.records[n - 1].acceptedAt < close.closedAt
            && |close.acceptedParticipants| == n
            && (forall i | 0 <= i < n :: close.acceptedParticipants[i] == c.records[i].participantId)
    ensures close.ceremonyId == d.ceremonyId && close.phase == c.phase && close.phaseId == c.phaseId
    ensures close.beaconProvider == d.beaconPolicy.provider && close.beaconNetwork == d.beaconPolicy.network
    ensures close.coordinatorId == d.coordinator.id && close.coordinatorKeyId == d.coordinator.keyId
    ensures d.createdAt < close.closedAt
    ensures d.Policy(c.phase).minimum <= |c.records| <= |d.Policy(c.phase).participants|
    ensures close.closeId == o.hash(Closing(close.(closeId := "")))
    ensures close.beaconRound >= 1
    ensures close.beaconNotBefore == (1692803367 + (close.beaconRound - 1) * 3) * 1_000_000_000
    ensures close.closedAt + d.beaconPolicy.minimumLeadSeconds * 1_000_000_000 <= close.beaconNotBefore
  {
    RoundSchedule(close.beaconRound, close.beaconRound);
    var last := |c.records| - 1;
    assert last >= 0 ==> Scheduled(d, c.phase, c.records[last], last);
  }

  /** What a beacon and a seal say: the committed round, its challenge, and the payload that the phase ended in. */
  lemma SealStates(o: Oracles, d: Definition, c: Chain, close: CloseRecord, b: BeaconRecord, s: SealRecord)
    requires ValidClose(o, d, c, close) && ValidBeacon(o, d, close, b) && ValidSeal(o, close, b, s)
    ensures |c.records| >= 1 && s.finalPayload == c.records[|c.records| - 1].outputPayload
    ensures b.closeId == close.closeId == s.closeId && s.beaconId == b.beaconId
    ensures b.round == close.beaconRound && b.provider == close.beaconProvider && b.network == close.beaconNetwork
    ensures b.challenge == o.challenge(close.closeId, close.beaconProvider, close.beaconNetwork, close.beaconRound, b.randomness)
    ensures close.beaconNotBefore <= b.publishedAt <= s.sealedAt
    ensures b.beaconId == o.hash(Beacon(b.(beaconId := ""))) && s.sealId == o.hash(Sealing(s.(sealId := "")))
    ensures b.ceremonyId == s.ceremonyId == d.ceremonyId
    ensures b.phase == s.phase == c.phase && b.phaseId == s.phaseId == c.phaseId
  {
    CloseStates(o, d, c, close);
  }

  /** What an accepted replay says about how its phases hang together. */
  lemma ReplayStates(o: Oracles, r: LoadedReplay)
    requires ValidReplay(o, r)
    ensures r.phase1Chain.phase == Phase1 && r.phase1Chain.genesis == r.definition.phase1Genesis
    ensures r.phase1Chain.phaseId == o.hash(PhaseRoot(r.definition.ceremonyId, Phase1, r.definition.phase1Genesis, ""))
    ensures r.phase2Chain.phase == Phase2
    ensures r.phase2Chain.phaseId ==
            o.hash(PhaseRoot(r.definition.ceremonyId, Phase2, r.phase2Chain.genesis, r.phase1Seal.sealId))
    ensures |r.phase1Chain.records| >= 1 &&
            r.phase1Seal.finalPayload == r.phase1Chain.records[|r.phase1Chain.records| - 1].outputPayload
    ensures r.phase1Seal.beaconId == r.phase1Beacon.beaconId && r.phase1Beacon.closeId == r.phase1Close.closeId
    ensures |r.phase2Chain.records| >= 1 &&
            r.phase2Close.finalPayload == r.phase2Chain.records[|r.phase2Chain.records| - 1].outputPayload
    ensures r.phase2Beacon.closeId == r.phase2Close.closeId
    ensures r.phase1Beacon.challenge.sha256 != r.phase2Beacon.challenge.sha256
    ensures r.phase1Beacon.round != r.phase2Beacon.round
  {
    hide ValidAgainstDefinition, ValidClose, ValidBeacon, ValidSeal;
    var d := r.definition;
    SealStates(o, d, r.phase1Chain, r.phase1Close, r.phase1Beacon, r.phase1Seal);
    CloseStates(o, d, r.phase1Chain, r.phase1Close);
    CloseStates(o, d, r.phase2Chain, r.phase2Close);
    BeaconStates(o, d, r.phase1Close, r.phase1Beacon);
    BeaconStates(o, d, r.phase2Close, r.phase2Beacon);
  }

  lemma BeaconStates(o: Oracles, d: Definition, close: CloseRecord, b: BeaconRecord)
    requires ValidBeacon(o, d, close, b)
    ensures b.closeId == close.closeId && b.round == close.beaconRound
    ensures b.provider == d.beaconPolicy.provider && b.network == d.beaconPolicy.network
  {
  }

  /** A production ceremony's closed phase holds one contribution from every scheduled participant, in order. */
  lemma ProductionPhaseIsComplete(o: Oracles, d: Definition, c: Chain, close: CloseRecord)
    requires ValidClose(o, d, c, close) && d.mode.Production?
    ensures close.acceptedParticipants == d.Policy(c.phase).participants
    ensures |close.acceptedParticipants| >= 2
  {
    forall i | 0 <= i < |c.records|
      ensures close.acceptedParticipants[i] == d.Policy(c.phase).participants[i]
    {
      assert Scheduled(d, c.phase, c.records[i], i);
    }
  }
}
