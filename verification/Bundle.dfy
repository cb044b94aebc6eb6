/** The operational evidence bundle: one phase, the whole bundle, and the chronology they enforce. */
module Bundles {
  import opened Common
  import opened Records
  import opened Definitions
  import opened Chains
  import opened Lifecycle
  import opened Evidence
  import opened Custody
  import opened Witnesses
  import opened Publication
  import opened References
  import Order

  datatype PhaseEvidence = PhaseEvidence(
    phase: Phase, acceptedChain: SignedRefs, close: SignedRefs, heads: seq<HeadEvidence>,
    quorum: U8, witnessReceipts: seq<SignedRefs>, relayEvidence: SignedRefs, rawResponses: seq<ArtifactRef>)

  datatype Bundle = Bundle(
    ceremonyId: Id, enrollments: seq<SignedRefs>, governance: seq<SignedRefs>,
    phase1: PhaseEvidence, phase2: PhaseEvidence,
    coordinatorId: Id, coordinatorKeyId: Id, assembledAt: Instant)

  /** A close record with the detached signature over its bytes. */
  datatype AuthenticatedClose = AuthenticatedClose(record: CloseRecord, signature: Document)

  predicate ValidPair(pair: SignedRefs) {
    pair.record.name != pair.signature.name
  }

  predicate OrderedPairs(pairs: seq<SignedRefs>) {
    && (forall i | 0 <= i < |pairs| :: ValidPair(pairs[i]))
    && (forall i | 0 < i < |pairs| :: Order.Less(pairs[i - 1].record.name, pairs[i].record.name))
  }

  predicate ValidHead(e: HeadEvidence) {
    && Scoped(e.index)
    && e.predecessorHeadId != e.acceptedHeadId
    && ValidPair(e.outboundHandoff) && ValidPair(e.outboundReceipt)
    && ValidPair(e.returnHandoff) && ValidPair(e.returnReceipt)
    && ValidPair(e.chainPrefix)
    && 2 <= |e.mirrorReceipts| <= 8 && OrderedPairs(e.mirrorReceipts)
  }

  predicate ValidPhaseEvidence(p: PhaseEvidence) {
    && ValidPair(p.acceptedChain) && ValidPair(p.close) && ValidPair(p.relayEvidence)
    && 1 <= |p.heads| <= MAX_PARTICIPANTS
    && (forall i | 0 <= i < |p.heads| :: ValidHead(p.heads[i]) && p.heads[i].index == i + 1)
    && 2 <= p.quorum <= |p.witnessReceipts| <= 32
    && OrderedPairs(p.witnessReceipts)
    && ArtifactSet(p.rawResponses)
  }

  predicate ValidBundle(b: Bundle) {
    && 6 <= |b.enrollments| <= 128 && OrderedPairs(b.enrollments)
    && |b.governance| <= 128 && OrderedPairs(b.governance)
    && ValidPhaseEvidence(b.phase1) && b.phase1.phase.Phase1?
    && ValidPhaseEvidence(b.phase2) && b.phase2.phase.Phase2?
  }

  ghost predicate NamesApart(pairs: seq<SignedRefs>) {
    && (forall i | 0 <= i < |pairs| :: pairs[i].record.name != pairs[i].signature.name)
    && (forall i, j | 0 <= i < j < |pairs| :: Order.Less(pairs[i].record.name, pairs[j].record.name))
  }

  /** A list of pairs is accepted exactly when no pair names one file twice and the records are in strict name order. */
  lemma PairsShape(pairs: seq<SignedRefs>)
    ensures OrderedPairs(pairs) <==> NamesApart(pairs)
  {
    if OrderedPairs(pairs) {
      var names := seq(|pairs|, (k: nat) requires k < |pairs| => pairs[k].record.name);
      forall i, j | 0 <= i < j < |pairs|
        ensures Order.Less(pairs[i].record.name, pairs[j].record.name)
      {
        Order.AdjacentOrder(names, i, j);
      }
    }
  }

  ghost predicate HeadShape(e: HeadEvidence, i: nat) {
    && e.index == i + 1 <= 20 && e.predecessorHeadId != e.acceptedHeadId
    && e.outboundHandoff.record.name != e.outboundHandoff.signature.name
    && e.outboundReceipt.record.name != e.outboundReceipt.signature.name
    && e.returnHandoff.record.name != e.returnHandoff.signature.name
    && e.returnReceipt.record.name != e.returnReceipt.signature.name
    && e.chainPrefix.record.name != e.chainPrefix.signature.name
    && 2 <= |e.mirrorReceipts| <= 8 && NamesApart(e.mirrorReceipts)
  }

  ghost predicate PhaseShape(p: PhaseEvidence) {
    && p.acceptedChain.record.name != p.acceptedChain.signature.name
    && p.close.record.name != p.close.signature.name
    && p.relayEvidence.record.name != p.relayEvidence.signature.name
    && 1 <= |p.heads| <= 20 && (forall i | 0 <= i < |p.heads| :: HeadShape(p.heads[i], i))
    && 2 <= p.quorum <= |p.witnessReceipts| <= 32 && NamesApart(p.witnessReceipts)
    && 1 <= |p.rawResponses| <= 128
    && (forall i, j | 0 <= i < j < |p.rawResponses| :: Order.Less(p.rawResponses[i].name, p.rawResponses[j].name))
  }

  lemma PhaseEvidenceShape(p: PhaseEvidence)
    ensures ValidPhaseEvidence(p) <==> PhaseShape(p)
  {
    hide OrderedPairs, NamesApart;
    PairsShape(p.witnessReceipts);
    forall i | 0 <= i < |p.heads|
      ensures ValidHead(p.heads[i]) && p.heads[i].index == i + 1 <==> HeadShape(p.heads[i], i)
    {
      PairsShape(p.heads[i].mirrorReceipts);
    }
    ArtifactSetOrder(p.rawResponses);
  }

  lemma ArtifactSetOrder(files: seq<ArtifactRef>)
    ensures ArtifactSet(files) <==>
              && 1 <= |files| <= 128
              && forall i, j | 0 <= i < j < |files| :: Order.Less(files[i].name, files[j].name)
  {
    if ArtifactSet(files) {
      var names := seq(|files|, (k: nat) requires k < |files| => files[k].name);
      forall i, j | 0 <= i < j < |files|
        ensures Order.Less(files[i].name, files[j].name)
      {
        Order.AdjacentOrder(names, i, j);
      }
    }
  }

  /** What a well-formed bundle holds, in numbers and orders. */
  lemma BundleShape(b: Bundle)
    ensures ValidBundle(b) <==>
              && 6 <= |b.enrollments| <= 128 && NamesApart(b.enrollments)
              && |b.governance| <= 128 && NamesApart(b.governance)
              && b.phase1.phase == Phase1 && PhaseShape(b.phase1)
              && b.phase2.phase == Phase2 && PhaseShape(b.phase2)
  {
    hide OrderedPairs, NamesApart, ValidPhaseEvidence, PhaseShape;
    PairsShape(b.enrollments);
    PairsShape(b.governance);
    PhaseEvidenceShape(b.phase1);
    PhaseEvidenceShape(b.phase2);
  }

  // ----- One phase -----

  predicate CloseAuthentic(w: World, d: Definition, trusted: Identity, p: PhaseEvidence, close: AuthenticatedClose) {
    && ValidCloseRecord(w.oracles, close.record)
    && close.record.ceremonyId == d.ceremonyId && close.record.phase == p.phase
    && w.signed(CloseDoc(close.record), close.signature, trusted)
    && w.digest(CloseDoc(close.record)) == p.close.record.digest
    && w.digest(close.signature) == p.close.signature.digest
  }

  predicate PayloadsLoad(w: World, root: Root, c: Chain) {
    && Loads(w, root, c.genesis)
    && forall i | 0 <= i < |c.records| :: Loads(w, root, c.records[i].outputPayload)
  }

  predicate ChainAuthentic(w: World, root: Root, d: Definition, trusted: Identity, p: PhaseEvidence, close: CloseRecord) {
    var c := LoadChain(w, root, p.acceptedChain.record);
    && c.Some?
    && SignedBy(w, root, p.acceptedChain, trusted)
    && c.value.phase == p.phase
    && ValidClose(w.oracles, d, c.value, close)
    && PayloadsLoad(w, root, c.value)
    && |p.heads| == |c.value.records|
  }

  predicate RelaysAuthentic(w: World, root: Root, d: Definition, trusted: Identity, p: PhaseEvidence, close: CloseRecord) {
    var e := LoadRelay(w, root, p.relayEvidence.record);
    && e.Some?
    && SignedBy(w, root, p.relayEvidence, trusted)
    && RelaysHold(w, root, d, close, e.value, p.rawResponses)
  }

  predicate PhaseVerified(
    w: World, root: Root, d: Definition, trusted: Identity, p: PhaseEvidence, close: AuthenticatedClose,
    enrollments: Enrollments)
  {
    && CloseAuthentic(w, d, trusted, p, close)
    && ChainAuthentic(w, root, d, trusted, p, close.record)
    && var c := LoadChain(w, root, p.acceptedChain.record).value;
       && HeadsVerified(w, root, d, c, p.heads, enrollments)
       && QuorumHolds(SightingOpener(w, root, d, close.record, enrollments), p.witnessReceipts, p.quorum)
       && RelaysAuthentic(w, root, d, trusted, p, close.record)
  }

  function PayloadRefs(c: Chain, count: nat): seq<ArtifactRef>
    requires count <= |c.records|
  {
    if count == 0 then [c.genesis] else PayloadRefs(c, count - 1) + [c.records[count - 1].outputPayload]
  }

  function PhaseRefs(p: PhaseEvidence, c: Chain): seq<ArtifactRef> {
    SignedPairs([p.acceptedChain, p.close])
    + PayloadRefs(c, |c.records|)
    + Flatten(HeadRefsAt(c, p.heads), |p.heads|)
    + SignedPairs(p.witnessReceipts)
    + SignedPair(p.relayEvidence)
    + p.rawResponses
  }

  method VerifyPayloads(w: World, root: Root, c: Chain) returns (ok: bool, refs: seq<ArtifactRef>)
    ensures ok <==> PayloadsLoad(w, root, c)
    ensures ok ==> refs == PayloadRefs(c, |c.records|)
  {
    hide Load;
    refs := [c.genesis];
    if !Loads(w, root, c.genesis) {
      return false, refs;
    }
    for i := 0 to |c.records|
      invariant refs == PayloadRefs(c, i)
      invariant forall k | 0 <= k < i :: Loads(w, root, c.records[k].outputPayload)
    {
      if !Loads(w, root, c.records[i].outputPayload) {
        return false, refs;
      }
      refs := refs + [c.records[i].outputPayload];
    }
    ok := true;
  }

  method VerifyChainEvidence(
    w: World, root: Root, d: Definition, trusted: Identity, p: PhaseEvidence, close: CloseRecord)
    returns (chain: Option<Chain>, refs: seq<ArtifactRef>)
    ensures chain.Some? <==> ChainAuthentic(w, root, d, trusted, p, close)
    ensures chain.Some? ==>
              && LoadChain(w, root, p.acceptedChain.record) == chain && |p.heads| == |chain.value.records|
              && refs == PayloadRefs(chain.value, |chain.value.records|)
  {
    hide LoadChain, SignedBy, ValidClose, PayloadsLoad;
    chain, refs := LoadChain(w, root, p.acceptedChain.record), [];
    if chain.None? || !SignedBy(w, root, p.acceptedChain, trusted) {
      return None, [];
    }
    if chain.value.phase != p.phase || !ValidClose(w.oracles, d, chain.value, close) {
      return None, [];
    }
    var payloadsOk, payloadRefs := VerifyPayloads(w, root, chain.value);
    if !payloadsOk || |p.heads| != |chain.value.records| {
      return None, [];
    }
    refs := payloadRefs;
  }

  method VerifyRelayEvidence(
    w: World, root: Root, d: Definition, trusted: Identity, p: PhaseEvidence, close: CloseRecord) returns (ok: bool)
    requires ValidPhaseEvidence(p)
    ensures ok <==> RelaysAuthentic(w, root, d, trusted, p, close)
  {
    hide LoadRelay, SignedBy, RelaysHold;
    var relay := LoadRelay(w, root, p.relayEvidence.record);
    if relay.None? || !SignedBy(w, root, p.relayEvidence, trusted) {
      return false;
    }
    LoadedRelayIsValid(w, root, p.relayEvidence.record);
    var fault := VerifyRelays(w, root, d, close, relay.value, p.rawResponses);
    ok := fault.None?;
  }

  method VerifyPhase(
    w: World, root: Root, d: Definition, trusted: Identity, p: PhaseEvidence, close: AuthenticatedClose,
    enrollments: Enrollments) returns (ok: bool, refs: seq<ArtifactRef>)
    requires ValidPhaseEvidence(p)
    ensures ok <==> PhaseVerified(w, root, d, trusted, p, close, enrollments)
    ensures ok ==> refs == PhaseRefs(p, LoadChain(w, root, p.acceptedChain.record).value)
    ensures ok ==> forall r :: r in refs <==> OfLoadedPhase(w, root, r, p)
  {
    hide OfLoadedPhase, CloseAuthentic, LoadChain, ChainAuthentic, RelaysAuthentic, QuorumHolds, HeadsVerified, Flatten, HeadRefsAt;
    if !CloseAuthentic(w, d, trusted, p, close) {
      return false, [];
    }
    var chain, payloadRefs := VerifyChainEvidence(w, root, d, trusted, p, close.record);
    if chain.None? {
      return false, [];
    }
    var c := chain.value;
    var headsOk, headRefs := VerifyAcceptedHeads(w, root, d, c, p.heads, enrollments);
    if !headsOk {
      return false, [];
    }
    var quorumOk := VerifyQuorum(SightingOpener(w, root, d, close.record, enrollments), p.witnessReceipts, p.quorum);
    if !quorumOk {
      return false, [];
    }
    ok := VerifyRelayEvidence(w, root, d, trusted, p, close.record);
    PhaseRefsAreNamed(w, root, p);
    refs := SignedPairs([p.acceptedChain, p.close]) + payloadRefs + headRefs
    + SignedPairs(p.witnessReceipts) + SignedPair(p.relayEvidence) + p.rawResponses;
  }

  lemma LoadedRelayIsValid(w: World, root: Root, ref: ArtifactRef)
    ensures LoadRelay(w, root, ref).Some? ==> ValidRelay(w, LoadRelay(w, root, ref).value)
  {
  }

  // ----- The latest timestamp -----

  /** A referenced record whose instants bound the assembly time from below. */
  datatype Timed =
    | EnrolledAt(ref: ArtifactRef) | RecordedAt(ref: ArtifactRef) | AcceptedAt(ref: ArtifactRef)
    | ClosedAt(ref: ArtifactRef) | HandedAt(ref: ArtifactRef) | ReceivedAt(ref: ArtifactRef)
    | StoredAt(ref: ArtifactRef) | ObservedAt(ref: ArtifactRef) | RetrievedAt(ref: ArtifactRef)

  function AcceptanceTimes(c: Chain): seq<Instant> {
    seq(|c.records|, i requires 0 <= i < |c.records| => c.records[i].acceptedAt)
  }

  function RetrievalTimes(e: RelayEvidence): seq<Instant> {
    seq(|e.observations|, i requires 0 <= i < |e.observations| => e.observations[i].retrievedAt)
  }

  /** The instants in one referenced record. */
  function Instants(w: World, root: Root, t: Timed): Option<seq<Instant>> {
    match t
    case EnrolledAt(ref) =>
      var r := LoadEnrollment(w, root, ref);
      if r.Some? then Some([r.value.enrolledAt]) else None
    case RecordedAt(ref) =>
      var r := LoadGovernance(w, root, ref);
      if r.Some? then Some([r.value.recordedAt]) else None
    case AcceptedAt(ref) =>
      var r := LoadChain(w, root, ref);
      if r.Some? then Some(AcceptanceTimes(r.value)) else None
    case ClosedAt(ref) =>
      var r := LoadClose(w, root, ref);
      if r.Some? then Some([r.value.closedAt]) else None
    case HandedAt(ref) =>
      var r := LoadHandoff(w, root, ref);
      if r.Some? then Some([r.value.createdAt]) else None
    case ReceivedAt(ref) =>
      var r := LoadReceipt(w, root, ref);
      if r.Some? then Some([r.value.receivedAt]) else None
    case StoredAt(ref) =>
      var r := LoadMirror(w, root, ref);
      if r.Some? then Some([r.value.storedAt]) else None
    case ObservedAt(ref) =>
      var r := LoadWitness(w, root, ref);
      if r.Some? then Some([r.value.observedAt]) else None
    case RetrievedAt(ref) =>
      var r := LoadRelay(w, root, ref);
      if r.Some? then Some([r.value.recordedAt] + RetrievalTimes(r.value)) else None
  }

  function Each(make: ArtifactRef -> Timed, pairs: seq<SignedRefs>): (list: seq<Timed>)
    ensures |list| == |pairs|
    ensures forall i | 0 <= i < |pairs| :: list[i] == make(pairs[i].record)
  {
    seq(|pairs|, i requires 0 <= i < |pairs| => make(pairs[i].record))
  }

  function HeadAgenda(e: HeadEvidence): seq<Timed> {
    [HandedAt(e.outboundHandoff.record), HandedAt(e.returnHandoff.record),
     ReceivedAt(e.outboundReceipt.record), ReceivedAt(e.returnReceipt.record)]
    + Each(ref => StoredAt(ref), e.mirrorReceipts)
  }

  function HeadAgendas(heads: seq<HeadEvidence>): seq<Timed> {
    if heads == [] then [] else HeadAgenda(heads[0]) + HeadAgendas(heads[1..])
  }

  function PhaseAgenda(p: PhaseEvidence): seq<Timed> {
    [AcceptedAt(p.acceptedChain.record), ClosedAt(p.close.record)]
    + HeadAgendas(p.heads)
    + Each(ref => ObservedAt(ref), p.witnessReceipts)
    + [RetrievedAt(p.relayEvidence.record)]
  }

  /** Everything whose time counts, in reading order. */
  function Agenda(b: Bundle): seq<Timed> {
    Each(ref => EnrolledAt(ref), b.enrollments)
    + Each(ref => RecordedAt(ref), b.governance)
    + PhaseAgenda(b.phase1) + PhaseAgenda(b.phase2)
  }

  predicate AllReadable(w: World, root: Root, agenda: seq<Timed>) {
    forall t | t in agenda :: Instants(w, root, t).Some?
  }

  /** Every instant in the records of the agenda. */
  ghost function Occurring(w: World, root: Root, agenda: seq<Timed>): iset<Instant> {
    iset t, at | t in agenda && Instants(w, root, t).Some? && at in Instants(w, root, t).value :: at
  }

  method AdvanceAll(times: seq<Instant>, start: Instant) returns (latest: Instant)
    ensures latest >= start && forall at | at in times :: at <= latest
    ensures latest == start || latest in times
  {
    latest := start;
    for i := 0 to |times|
      invariant latest >= start && forall k | 0 <= k < i :: times[k] <= latest
      invariant latest == start || latest in times
    {
      if times[i] > latest {
        latest := times[i];
      }
    }
  }

  method LatestTimestamp(w: World, root: Root, agenda: seq<Timed>) returns (result: Option<Instant>)
    ensures result.Some? ==> AllReadable(w, root, agenda) && IsLatest(Occurring(w, root, agenda), result.value)
    ensures result.Some? ==> result.value > ZERO_TIME
    ensures result.None? ==> !AllReadable(w, root, agenda) || IsLatest(Occurring(w, root, agenda), ZERO_TIME)
  {
    hide Instants;
    var latest := ZERO_TIME;
    for i := 0 to |agenda|
      invariant AllReadable(w, root, agenda[..i])
      invariant IsLatest(Occurring(w, root, agenda[..i]), latest)
    {
      assert agenda[..i + 1] == agenda[..i] + [agenda[i]];
      var times := Instants(w, root, agenda[i]);
      if times.None? {
        return None;
      }
      ghost var before := latest;
      latest := AdvanceAll(times.value, latest);
      ghost var front := agenda[..i + 1];
      forall at | at in Occurring(w, root, front) ensures at <= latest {
        assert at in times.value || at in Occurring(w, root, agenda[..i]);
      }
      if latest == before {
        assert before > ZERO_TIME ==> before in Occurring(w, root, agenda[..i]);
      }
    }
    assert agenda[..|agenda|] == agenda;
    result := if latest == ZERO_TIME then None else Some(latest);
  }

  // ----- The whole bundle -----

  function OpenGovernance(w: World, root: Root, d: Definition, refs: SignedRefs): Option<Governance> {
    match LoadGovernance(w, root, refs.record)
    case None => None
    case Some(g) =>
      if && g.ceremonyId == d.ceremonyId
         && SignedByParty(w, root, d, refs, g.signerId, g.signerKeyId)
         && forall i | 0 <= i < |g.evidence| :: Loads(w, root, g.evidence[i])
      then Some(g) else None
  }

  function GovernanceOpener(w: World, root: Root, d: Definition): SignedRefs -> Option<Governance> {
    refs => OpenGovernance(w, root, d, refs)
  }

  function GovernanceRefs(pairs: seq<SignedRefs>, records: seq<Governance>, count: nat): seq<ArtifactRef>
    requires count <= |pairs| && count <= |records|
  {
    if count == 0 then []
    else GovernanceRefs(pairs, records, count - 1) + SignedPair(pairs[count - 1]) + records[count - 1].evidence
  }

  function EnrollmentRefs(pairs: seq<SignedRefs>, records: seq<Enrollment>, count: nat): seq<ArtifactRef>
    requires count <= |pairs| == |records|
  {
    if count == 0 then []
    else
      EnrollmentRefs(pairs, records, count - 1) + SignedPair(pairs[count - 1]) + [records[count - 1].disclosure]
  }

  predicate BundleBinds(d: Definition, b: Bundle) {
    && b.ceremonyId == d.ceremonyId
    && b.coordinatorId == d.coordinator.id && b.coordinatorKeyId == d.coordinator.keyId
  }

  /** Every reference of a bundle whose parts open. */
  function AllRefs(w: World, root: Root, d: Definition, b: Bundle): Option<seq<ArtifactRef>> {
    match (OpenAll(EnrollmentOpener(w, root, d), b.enrollments, |b.enrollments|),
           OpenAll(GovernanceOpener(w, root, d), b.governance, |b.governance|),
           LoadChain(w, root, b.phase1.acceptedChain.record),
           LoadChain(w, root, b.phase2.acceptedChain.record))
    case (Some(es), Some(gs), Some(c1), Some(c2)) =>
      Some(EnrollmentRefs(b.enrollments, es, |es|) + GovernanceRefs(b.governance, gs, |gs|)
           + PhaseRefs(b.phase1, c1) + PhaseRefs(b.phase2, c2))
    case _ => None
  }

  // ----- What is referenced -----

  /** A document of one phase: its chain with every payload, its close, its heads, its witnesses and its relays. */
  ghost predicate OfPhase(r: ArtifactRef, p: PhaseEvidence, c: Chain) {
    || InPair(r, p.acceptedChain) || InPair(r, p.close)
    || r == c.genesis
    || (exists i | 0 <= i < |c.records| :: r == c.records[i].outputPayload)
    || (exists i | 0 <= i < |p.heads| && i < |c.records| :: OfHead(r, c.records[i], p.heads[i]))
    || InPairs(r, p.witnessReceipts)
    || InPair(r, p.relayEvidence)
    || r in p.rawResponses
  }

  ghost predicate OfEnrollment(w: World, root: Root, r: ArtifactRef, pair: SignedRefs) {
    var record := LoadEnrollment(w, root, pair.record);
    InPair(r, pair) || (record.Some? && r == record.value.disclosure)
  }

  ghost predicate OfGovernance(w: World, root: Root, r: ArtifactRef, pair: SignedRefs) {
    var record := LoadGovernance(w, root, pair.record);
    InPair(r, pair) || (record.Some? && r in record.value.evidence)
  }

  ghost predicate OfLoadedPhase(w: World, root: Root, r: ArtifactRef, p: PhaseEvidence) {
    var c := LoadChain(w, root, p.acceptedChain.record);
    c.Some? && OfPhase(r, p, c.value)
  }

  /** A document that the bundle names, in itself or in one of the records it leads to. */
  ghost predicate Referenced(w: World, root: Root, b: Bundle, r: ArtifactRef) {
    || (exists i | 0 <= i < |b.enrollments| :: OfEnrollment(w, root, r, b.enrollments[i]))
    || (exists i | 0 <= i < |b.governance| :: OfGovernance(w, root, r, b.governance[i]))
    || OfLoadedPhase(w, root, r, b.phase1)
    || OfLoadedPhase(w, root, r, b.phase2)
  }

  lemma {:induction false} PayloadRefsHold(r: ArtifactRef, c: Chain, count: nat)
    requires count <= |c.records|
    ensures r in PayloadRefs(c, count) <==>
            r == c.genesis || exists i | 0 <= i < count :: r == c.records[i].outputPayload
  {
    if count > 0 {
      PayloadRefsHold(r, c, count - 1);
    }
  }

  lemma PhaseRefsHold(r: ArtifactRef, p: PhaseEvidence, c: Chain)
    ensures r in PhaseRefs(p, c) <==> OfPhase(r, p, c)
  {
    hide HeadRefs, OfHead, InPair, InPairs, SignedPairs, PayloadRefs, Flatten, HeadRefsAt;
    var ends := [p.acceptedChain, p.close];
    PairsHold(r, ends);
    TwoPairs(r, p.acceptedChain, p.close);
    PayloadRefsHold(r, c, |c.records|);
    HeadRefsAtHold(r, c, p.heads);
    PairsHold(r, p.witnessReceipts);
    OnePair(r, p.relayEvidence);
  }

  lemma PhaseRefsAreNamed(w: World, root: Root, p: PhaseEvidence)
    ensures var c := LoadChain(w, root, p.acceptedChain.record);
            c.Some? ==> forall r :: r in PhaseRefs(p, c.value) <==> OfLoadedPhase(w, root, r, p)
  {
    hide OfPhase, PhaseRefs, LoadChain;
    var c := LoadChain(w, root, p.acceptedChain.record);
    if c.Some? {
      forall r
        ensures r in PhaseRefs(p, c.value) <==> OfPhase(r, p, c.value)
      {
        PhaseRefsHold(r, p, c.value);
      }
    }
  }

  lemma TwoPairs(r: ArtifactRef, a: SignedRefs, b: SignedRefs)
    ensures InPairs(r, [a, b]) <==> InPair(r, a) || InPair(r, b)
  {
    var pairs := [a, b];
    assert pairs[0] == a && pairs[1] == b;
  }

  lemma OnePair(r: ArtifactRef, pair: SignedRefs)
    ensures r in SignedPair(pair) <==> InPair(r, pair)
  {
  }

  lemma {:induction false} EnrollmentRefsHold(
    w: World, root: Root, d: Definition, r: ArtifactRef, pairs: seq<SignedRefs>, records: seq<Enrollment>, count: nat)
    requires OpenAll(EnrollmentOpener(w, root, d), pairs, |pairs|) == Some(records)
    requires count <= |pairs|
    ensures r in EnrollmentRefs(pairs, records, count) <==>
            exists i | 0 <= i < count :: OfEnrollment(w, root, r, pairs[i])
  {
    hide EnrollmentBinds, SignedBy, LoadEnrollment, OpenAll;
    if count > 0 {
      EnrollmentRefsHold(w, root, d, r, pairs, records, count - 1);
      OpenEach(EnrollmentOpener(w, root, d), pairs, records, count - 1);
      assert LoadEnrollment(w, root, pairs[count - 1].record) == Some(records[count - 1]);
    }
  }

  lemma {:induction false} GovernanceRefsHold(
    w: World, root: Root, d: Definition, r: ArtifactRef, pairs: seq<SignedRefs>, records: seq<Governance>, count: nat)
    requires OpenAll(GovernanceOpener(w, root, d), pairs, |pairs|) == Some(records)
    requires count <= |pairs|
    ensures r in GovernanceRefs(pairs, records, count) <==>
            exists i | 0 <= i < count :: OfGovernance(w, root, r, pairs[i])
  {
    hide SignedByParty, LoadGovernance, OpenAll;
    if count > 0 {
      GovernanceRefsHold(w, root, d, r, pairs, records, count - 1);
      OpenEach(GovernanceOpener(w, root, d), pairs, records, count - 1);
      assert LoadGovernance(w, root, pairs[count - 1].record) == Some(records[count - 1]);
    }
  }

  /** The gathered references are exactly the documents the bundle names. */
  lemma AllRefsHold(w: World, root: Root, d: Definition, b: Bundle, r: ArtifactRef)
    requires AllRefs(w, root, d, b).Some?
    ensures r in AllRefs(w, root, d, b).value <==> Referenced(w, root, b, r)
  {
    hide OfEnrollment, OfGovernance, OfPhase, PhaseRefs, EnrollmentRefs, GovernanceRefs, LoadChain, OpenAll,
      EnrollmentOpener, GovernanceOpener;
    var es := OpenAll(EnrollmentOpener(w, root, d), b.enrollments, |b.enrollments|).value;
    var gs := OpenAll(GovernanceOpener(w, root, d), b.governance, |b.governance|).value;
    EnrollmentRefsHold(w, root, d, r, b.enrollments, es, |b.enrollments|);
    GovernanceRefsHold(w, root, d, r, b.governance, gs, |b.governance|);
    PhaseRefsHold(r, b.phase1, LoadChain(w, root, b.phase1.acceptedChain.record).value);
    PhaseRefsHold(r, b.phase2, LoadChain(w, root, b.phase2.acceptedChain.record).value);
  }

  /** VerifyOperationalEvidenceBundle, from an authenticated bundle on. */
  ghost predicate BundleVerified(
    w: World, root: Root, d: Definition, trusted: Identity, b: Bundle,
    close1: AuthenticatedClose, close2: AuthenticatedClose)
  {
    && ValidDefinition(w.oracles, d)
    && BundleBinds(d, b)
    && EnrollmentsHold(w, root, d, b.enrollments)
    && OpenAll(GovernanceOpener(w, root, d), b.governance, |b.governance|).Some?
    && close1.record.beaconRound != close2.record.beaconRound
    && var enrollments := EnrollmentsOf(w, root, d, b);
       && PhaseVerified(w, root, d, trusted, b.phase1, close1, enrollments)
       && PhaseVerified(w, root, d, trusted, b.phase2, close2, enrollments)
       && AllReadable(w, root, Agenda(b))
       && (exists latest :: IsLatest(Occurring(w, root, Agenda(b)), latest) && ZERO_TIME < latest < b.assembledAt)
       && AllRefs(w, root, d, b).Some?
       && !Equivocated(AllRefs(w, root, d, b).value)
  }

  method VerifyGovernance(w: World, root: Root, d: Definition, pairs: seq<SignedRefs>)
    returns (ok: bool, refs: seq<ArtifactRef>, ghost records: seq<Governance>)
    ensures ok <==> OpenAll(GovernanceOpener(w, root, d), pairs, |pairs|).Some?
    ensures ok ==> OpenAll(GovernanceOpener(w, root, d), pairs, |pairs|) == Some(records)
    ensures ok ==> refs == GovernanceRefs(pairs, records, |pairs|)
  {
    hide OpenGovernance;
    var open := GovernanceOpener(w, root, d);
    refs, records := [], [];
    for i := 0 to |pairs|
      invariant OpenAll(open, pairs, i) == Some(records)
      invariant refs == GovernanceRefs(pairs, records, i)
    {
      OpenPrefix(open, pairs, i + 1, |pairs|);
      var next := open(pairs[i]);
      if next.None? {
        return false, [], [];
      }
      GovernanceRefsFront(pairs, records, [next.value], i);
      refs := refs + SignedPair(pairs[i]) + next.value.evidence;
      records := records + [next.value];
    }
    ok := true;
  }

  lemma {:induction false} GovernanceRefsFront(
    pairs: seq<SignedRefs>, records: seq<Governance>, more: seq<Governance>, count: nat)
    requires count <= |pairs| && count <= |records|
    ensures GovernanceRefs(pairs, records + more, count) == GovernanceRefs(pairs, records, count)
  {
    if count > 0 {
      GovernanceRefsFront(pairs, records, more, count - 1);
    }
  }

  method VerifyBundle(
    w: World, root: Root, d: Definition, trusted: Identity, b: Bundle,
    close1: AuthenticatedClose, close2: AuthenticatedClose) returns (refs: Option<seq<ArtifactRef>>)
    requires ValidBundle(b)
    ensures refs.Some? <==> BundleVerified(w, root, d, trusted, b, close1, close2)
    ensures refs.Some? ==> UniquelyOrdered(refs.value)
    ensures refs.Some? ==> forall r :: r in refs.value <==> Referenced(w, root, b, r)
  {
    hide Referenced;
    hide PhaseVerified, EveryActorEnrolled, OpenEnrollment, OpenGovernance, LoadChain, PhaseRefs, Agenda, ValidDefinition;
    hide EnrollmentRefs, GovernanceRefs, Equivocated, AllReadable, IsLatest, UniquelyOrdered, RollOf, AllSeparate;
    if !ValidDefinition(w.oracles, d) || !BundleBinds(d, b) {
      return None;
    }
    var enrolled, enrollments, records := VerifyEnrollments(w, root, d, b.enrollments);
    if !enrolled {
      return None;
    }
    var governed, governanceRefs, gs := VerifyGovernance(w, root, d, b.governance);
    if !governed || close1.record.beaconRound == close2.record.beaconRound {
      return None;
    }
    var ok1, refs1 := VerifyPhase(w, root, d, trusted, b.phase1, close1, enrollments);
    if !ok1 {
      return None;
    }
    var ok2, refs2 := VerifyPhase(w, root, d, trusted, b.phase2, close2, enrollments);
    if !ok2 {
      return None;
    }
    var latest := LatestTimestamp(w, root, Agenda(b));
    if latest.None? {
      LatestIsUnique(w, root, Agenda(b), ZERO_TIME);
      return None;
    }
    LatestIsUnique(w, root, Agenda(b), latest.value);
    if !(b.assembledAt > latest.value) {
      return None;
    }
    VerifiedPhaseLoads(w, root, d, trusted, b.phase1, close1, enrollments);
    VerifiedPhaseLoads(w, root, d, trusted, b.phase2, close2, enrollments);
    var list := EnrollmentRefs(b.enrollments, records, |records|) + governanceRefs + refs1 + refs2;
    assert AllRefs(w, root, d, b) == Some(list);
    var all := new ArtifactRef[|list|](i requires 0 <= i < |list| => list[i]);
    assert all[..] == list;
    var distinct, kept := SortAndCompact(all);
    refs := if distinct then Some(all[..kept]) else None;
    forall r
      ensures r in list <==> Referenced(w, root, b, r)
    {
      AllRefsHold(w, root, d, b, r);
    }
  }

  /**
   The whole check, from the exact bytes of the bundle and of its signature: the external coordinator key must have
   signed them, and what they encode must be a well-formed bundle that verifies.
   */
  method VerifyOperationalEvidenceBundle(
    w: World, root: Root, d: Definition, trusted: Identity, decode: Document -> Option<Bundle>,
    record: Document, signature: Document, close1: AuthenticatedClose, close2: AuthenticatedClose)
    returns (refs: Option<seq<ArtifactRef>>)
    ensures refs.Some? <==>
              && w.signed(record, signature, trusted)
              && decode(record).Some? && ValidBundle(decode(record).value)
              && BundleVerified(w, root, d, trusted, decode(record).value, close1, close2)
    ensures refs.Some? ==>
              && UniquelyOrdered(refs.value)
              && forall r :: r in refs.value <==> Referenced(w, root, decode(record).value, r)
  {
    hide BundleVerified, Referenced, ValidBundle, ValidDefinition, UniquelyOrdered;
    if !w.signed(record, signature, trusted) {
      return None;
    }
    var bundle := decode(record);
    if bundle.None? || !ValidBundle(bundle.value) {
      return None;
    }
    refs := VerifyBundle(w, root, d, trusted, bundle.value, close1, close2);
  }

  lemma VerifiedPhaseLoads(
    w: World, root: Root, d: Definition, trusted: Identity, p: PhaseEvidence, close: AuthenticatedClose,
    enrollments: Enrollments)
    requires PhaseVerified(w, root, d, trusted, p, close, enrollments)
    ensures LoadChain(w, root, p.acceptedChain.record).Some?
  {
    hide CloseAuthentic, LoadChain, HeadsVerified, QuorumHolds, RelaysAuthentic, ValidClose;
  }

  lemma LatestIsUnique(w: World, root: Root, agenda: seq<Timed>, latest: Instant)
    ensures IsLatest(Occurring(w, root, agenda), latest) ==>
              forall other :: IsLatest(Occurring(w, root, agenda), other) ==> other == latest
  {
    hide Instants;
    forall other | IsLatest(Occurring(w, root, agenda), latest) && IsLatest(Occurring(w, root, agenda), other) ensures other == latest {
      assert latest > ZERO_TIME ==> latest in Occurring(w, root, agenda);
      assert other > ZERO_TIME ==> other in Occurring(w, root, agenda);
    }
  }

  // ----- Chronology -----

  /**
   The chronology of one phase of a verified bundle, over the phase's own documents: the accepted chain, the close,
   the head evidence, the witness receipts and the relay evidence that it references. From the definition's creation
   a single strict timeline runs through the seven events of every head to the close; then come every witness's
   sighting, with the signed lead before the scheduled round, and after it every relay's retrieval, the record of
   them all, and the assembly.
   */
  ghost predicate Chronology(
    w: World, root: Root, d: Definition, p: PhaseEvidence, close: CloseRecord, enrollments: Enrollments,
    assembledAt: Instant,
    c: Chain, dossiers: seq<Dossier>, sightings: seq<WitnessReceipt>, relays: RelayEvidence, round: Instant)
  {
    && LoadChain(w, root, p.acceptedChain.record) == Some(c)
    && w.digest(CloseDoc(close)) == p.close.record.digest
    && Dossiers(w, root, c, p.heads, dossiers)
    && |dossiers| >= 1
    && StrictlyIncreasing(Timeline(d, c, dossiers, |dossiers|) + [close.closedAt])
    && OpenAll(SightingOpener(w, root, d, close, enrollments), p.witnessReceipts, |p.witnessReceipts|) == Some(sightings)
    && |sightings| >= p.quorum >= 2
    && (forall i | 0 <= i < |sightings| ::
          close.closedAt < sightings[i].observedAt
          && sightings[i].observedAt + d.beaconPolicy.minimumLeadSeconds * SECOND <= round)
    && RoundTime(close.beaconRound) == Some(round)
    && LoadRelay(w, root, p.relayEvidence.record) == Some(relays)
    && |relays.observations| >= 3
    && (forall i | 0 <= i < |relays.observations| ::
          round <= relays.observations[i].retrievedAt <= relays.recordedAt)
    && relays.recordedAt < assembledAt
  }

  /** The documents of the phase are all there, and their instants are in this order. */
  ghost predicate HasChronology(
    w: World, root: Root, d: Definition, p: PhaseEvidence, close: CloseRecord, enrollments: Enrollments,
    assembledAt: Instant)
  {
    exists c, dossiers, sightings, relays, round ::
      Chronology(w, root, d, p, close, enrollments, assembledAt, c, dossiers, sightings, relays, round)
  }

  /** The enrollments by identity of a bundle whose enrollment records open. */
  function EnrollmentsOf(w: World, root: Root, d: Definition, b: Bundle): Enrollments {
    match OpenAll(EnrollmentOpener(w, root, d), b.enrollments, |b.enrollments|)
    case Some(records) => RollOf(records).byId
    case None => map[]
  }

  lemma DossiersOpen(
    w: World, root: Root, d: Definition, c: Chain, heads: seq<HeadEvidence>, enrollments: Enrollments)
    returns (dossiers: seq<Dossier>)
    requires HeadsVerified(w, root, d, c, heads, enrollments)
    ensures Dossiers(w, root, c, heads, dossiers)
  {
    hide OpenDossier, DossierCoheres, MirrorsHold;
    forall i: nat | i < |heads| ensures OpenDossier(w, root, c.records[i], heads[i]).Some? {
      assert HeadVerdict(w, root, d, c, heads, enrollments)(i);
    }
    dossiers := seq(|heads|, i requires 0 <= i < |heads| => OpenDossier(w, root, c.records[i], heads[i]).value);
  }

  /** A closed chain has a last acceptance, and closes after it. */
  lemma ClosedAfterAll(o: Oracles, d: Definition, c: Chain, close: CloseRecord)
    requires ValidClose(o, d, c, close)
    ensures |c.records| >= 1 && PredecessorTime(d, c, |c.records|) < close.closedAt
  {
    hide ValidAgainstDefinition;
  }

  lemma AppendLater(front: seq<Instant>, at: Instant)
    requires front != [] && StrictlyIncreasing(front) && front[|front| - 1] < at
    ensures StrictlyIncreasing(front + [at])
  {
    var last := |front| - 1;
    assert forall i | 0 <= i < last :: front[i] < front[last];
  }

  lemma CustodyChronology(
    w: World, root: Root, d: Definition, c: Chain, close: CloseRecord, heads: seq<HeadEvidence>,
    enrollments: Enrollments, dossiers: seq<Dossier>)
    requires ValidClose(w.oracles, d, c, close)
    requires HeadsVerified(w, root, d, c, heads, enrollments) && Dossiers(w, root, c, heads, dossiers)
    ensures |dossiers| >= 1
    ensures StrictlyIncreasing(Timeline(d, c, dossiers, |dossiers|) + [close.closedAt])
  {
    hide OpenDossier, HeadVerdict, ValidClose, StrictlyIncreasing, HeadTimes;
    ClosedAfterAll(w.oracles, d, c, close);
    TimelineIncreases(w, root, d, c, heads, enrollments, dossiers, |heads|);
    AppendLater(Timeline(d, c, dossiers, |heads|), close.closedAt);
  }

  lemma SightingBinds(
    w: World, root: Root, d: Definition, close: CloseRecord, enrollments: Enrollments,
    pairs: seq<SignedRefs>, sightings: seq<WitnessReceipt>, i: nat)
    requires OpenAll(SightingOpener(w, root, d, close, enrollments), pairs, |pairs|) == Some(sightings)
    requires i < |sightings|
    ensures WitnessBinds(w, d, close, sightings[i]) && EnrolledAs(enrollments, sightings[i].observer, WitnessRole)
  {
    hide WitnessBinds, EnrolledAs, SignedBy, LoadWitness;
    OpenEach(SightingOpener(w, root, d, close, enrollments), pairs, sightings, i);
    assert SightingOpener(w, root, d, close, enrollments)(pairs[i])
        == OpenSighting(w, root, d, close, enrollments, pairs[i]);
  }

  /** What a counted sighting says: an enrolled witness signed that it saw exactly this closure of this chain head. */
  lemma SightingStates(
    w: World, root: Root, d: Definition, close: CloseRecord, enrollments: Enrollments, refs: SignedRefs, r: WitnessReceipt)
    requires OpenSighting(w, root, d, close, enrollments, refs) == Some(r)
    ensures SignedDocument(w, root, refs, WitnessDoc(r), r.observer)
    ensures r.observer.id in enrollments
    ensures enrollments[r.observer.id].identity == r.observer && enrollments[r.observer.id].role == WitnessRole
    ensures r.ceremonyId == d.ceremonyId && r.phase == close.phase && r.closeId == close.closeId
    ensures r.chainHeadId == close.chainHeadId && r.beaconRound == close.beaconRound
    ensures r.closure.digest == w.digest(CloseDoc(close))
    ensures forall k | 0 <= k < |Actors(d)| ::
              && Actors(d)[k].id != r.observer.id && Actors(d)[k].keyId != r.observer.keyId
              && Actors(d)[k].fingerprint != r.observer.fingerprint
  {
    hide ValidDefinition, ValidCloseRecord, RoundTime;
    SignedDocumentLoads(w, root, refs, WitnessDoc(r), r.observer);
    assert forall k | 0 <= k < |Actors(d)| :: Unrelated(Actors(d)[k], r.observer);
  }

  /** What verified relay evidence says: three or more independent relays, each answering after the round. */
  lemma RelayStates(
    w: World, root: Root, d: Definition, close: CloseRecord, e: RelayEvidence, refs: seq<ArtifactRef>, k: nat, m: nat)
    requires ArtifactSet(refs) && RelaysHold(w, root, d, close, e, refs) && k < |e.observations|
    ensures 3 <= |e.observations| == |refs| <= 16
    ensures e.observations[k].rawResponse in refs
    ensures var response := Load(w, root, e.observations[k].rawResponse);
            response.Some? && w.drand(d.beaconPolicy, close.beaconRound, response.value) == Some(e.observations[k].randomness)
    ensures m < k ==>
              && e.observations[k].relayId != e.observations[m].relayId
              && e.observations[k].operatorId != e.observations[m].operatorId
              && e.observations[k].endpoint != e.observations[m].endpoint
              && e.observations[k].randomness == e.observations[m].randomness
    ensures e.ceremonyId == d.ceremonyId == close.ceremonyId
    ensures e.closeId == close.closeId && e.beaconRound == close.beaconRound && e.phase == close.phase
    ensures e.provider == d.beaconPolicy.provider && e.network == d.beaconPolicy.network
    ensures e.coordinatorId == d.coordinator.id && e.coordinatorKeyId == d.coordinator.keyId
  {
    hide ValidDefinition, ValidCloseRecord, Load;
    RelaysAreDistinct(w, e);
    assert m < k ==> Independent(e.observations[m], e.observations[k]);
    OrderedSetIsDistinct(refs);
    ResponsesCover(w, root, e, refs, k);
  }

  /** As many distinct references as observations, each named by one, leave no observation without its reference. */
  lemma ResponsesCover(w: World, root: Root, e: RelayEvidence, refs: seq<ArtifactRef>, k: nat)
    requires DistinctRefs(refs) && ResponsesNamed(w, root, refs, e.observations) && k < |e.observations|
    ensures e.observations[k].rawResponse in refs
  {
    hide Loads;
    var obs := e.observations;
    assert forall i | 0 <= i < |refs| :: NamedBy(refs[i], obs);
    var image := seq(|refs|, (i: nat) requires i < |refs| => NamerOf(refs[i], obs));
    var i := Order.InjectionIsOnto(|refs|, image, k);
    assert refs[i] == obs[k].rawResponse;
  }

  ghost function NamerOf(ref: ArtifactRef, observations: seq<Observation>): (k: nat)
    requires NamedBy(ref, observations)
    ensures k < |observations| && observations[k].rawResponse == ref
  {
    var k :| 0 <= k < |observations| && observations[k].rawResponse == ref;
    k
  }

  lemma WitnessTimes(w: World, d: Definition, close: CloseRecord, r: WitnessReceipt)
    requires WitnessBinds(w, d, close, r)
    ensures RoundTime(close.beaconRound).Some? && close.closedAt < r.observedAt
    ensures r.observedAt + d.beaconPolicy.minimumLeadSeconds * SECOND <= RoundTime(close.beaconRound).value
  {
    hide ValidDefinition, ValidCloseRecord, Overlaps;
  }

  lemma SightingTimes(
    w: World, root: Root, d: Definition, close: CloseRecord, enrollments: Enrollments,
    pairs: seq<SignedRefs>, sightings: seq<WitnessReceipt>, round: Instant)
    requires OpenAll(SightingOpener(w, root, d, close, enrollments), pairs, |pairs|) == Some(sightings)
    requires RoundTime(close.beaconRound) == Some(round)
    ensures forall i | 0 <= i < |sightings| ::
              close.closedAt < sightings[i].observedAt
              && sightings[i].observedAt + d.beaconPolicy.minimumLeadSeconds * SECOND <= round
  {
    hide WitnessBinds, OpenAll, EnrolledAs;
    forall i | 0 <= i < |sightings|
      ensures close.closedAt < sightings[i].observedAt
      ensures sightings[i].observedAt + d.beaconPolicy.minimumLeadSeconds * SECOND <= round
    {
      SightingBinds(w, root, d, close, enrollments, pairs, sightings, i);
      WitnessTimes(w, d, close, sightings[i]);
    }
  }

  lemma RelayTimes(
    w: World, root: Root, d: Definition, close: CloseRecord, e: RelayEvidence, refs: seq<ArtifactRef>)
    requires RelaysHold(w, root, d, close, e, refs)
    ensures RoundTime(close.beaconRound).Some? && |e.observations| >= 3
    ensures forall i | 0 <= i < |e.observations| ::
              RoundTime(close.beaconRound).value <= e.observations[i].retrievedAt <= e.recordedAt
  {
    hide ValidDefinition, ValidCloseRecord, Load;
    assert ValidRelay(w, e);
  }

  lemma PhaseChronology(
    w: World, root: Root, d: Definition, trusted: Identity, p: PhaseEvidence, close: AuthenticatedClose,
    enrollments: Enrollments, assembledAt: Instant)
    returns (c: Chain, dossiers: seq<Dossier>, sightings: seq<WitnessReceipt>, relays: RelayEvidence, round: Instant)
    requires PhaseVerified(w, root, d, trusted, p, close, enrollments)
    requires forall at | at in Instants(w, root, RetrievedAt(p.relayEvidence.record)).value :: at < assembledAt
    requires Instants(w, root, RetrievedAt(p.relayEvidence.record)).Some?
    ensures Chronology(w, root, d, p, close.record, enrollments, assembledAt, c, dossiers, sightings, relays, round)
  {
    hide LoadChain, LoadRelay, ValidClose, HeadsVerified, RelaysHold, ValidCloseRecord, Concur, SightingOpener,
      RoundTime, Timeline, StrictlyIncreasing, OpenDossier, PayloadsLoad, SignedBy;
    c := LoadChain(w, root, p.acceptedChain.record).value;
    dossiers := DossiersOpen(w, root, d, c, p.heads, enrollments);
    CustodyChronology(w, root, d, c, close.record, p.heads, enrollments, dossiers);
    var open := SightingOpener(w, root, d, close.record, enrollments);
    sightings := OpenAll(open, p.witnessReceipts, |p.witnessReceipts|).value;
    relays := LoadRelay(w, root, p.relayEvidence.record).value;
    RelayTimes(w, root, d, close.record, relays, p.rawResponses);
    round := RoundTime(close.record.beaconRound).value;
    SightingTimes(w, root, d, close.record, enrollments, p.witnessReceipts, sightings, round);
    var times := [relays.recordedAt] + RetrievalTimes(relays);
    assert Instants(w, root, RetrievedAt(p.relayEvidence.record)).value == times;
    assert times[0] in times;
  }

  /** What a verified phase says: the coordinator's key signed its chain, close and relay evidence, and every payload is there. */
  lemma PhaseStates(
    w: World, root: Root, d: Definition, trusted: Identity, p: PhaseEvidence, close: AuthenticatedClose, enrollments: Enrollments)
    returns (c: Chain, relays: RelayEvidence)
    requires PhaseVerified(w, root, d, trusted, p, close, enrollments)
    ensures SignedDocument(w, root, p.acceptedChain, ChainDoc(c), trusted)
    ensures c.phase == p.phase == close.record.phase && close.record.ceremonyId == d.ceremonyId
    ensures w.signed(CloseDoc(close.record), close.signature, trusted)
    ensures w.digest(CloseDoc(close.record)) == p.close.record.digest && w.digest(close.signature) == p.close.signature.digest
    ensures ValidClose(w.oracles, d, c, close.record)
    ensures |p.heads| == |c.records|
    ensures forall i | 0 <= i < |c.records| :: HeadVerified(w, root, d, c, i, p.heads[i], enrollments)
    ensures c.genesis.name in root && w.digest(root[c.genesis.name]) == c.genesis.digest
    ensures forall i | 0 <= i < |c.records| ::
              var payload := c.records[i].outputPayload;
              payload.name in root && w.digest(root[payload.name]) == payload.digest
    ensures SignedDocument(w, root, p.relayEvidence, RelayDoc(relays), trusted)
    ensures RelaysHold(w, root, d, close.record, relays, p.rawResponses)
  {
    hide ValidClose, ValidCloseRecord, HeadVerified, RelaysHold, QuorumHolds, LoadChain, LoadRelay, SignedBy;
    c := LoadChain(w, root, p.acceptedChain.record).value;
    relays := LoadRelay(w, root, p.relayEvidence.record).value;
    LoadedAre(w, root, p.acceptedChain.record, p.acceptedChain.record, p.acceptedChain.record);
    LoadedRelay(w, root, p.relayEvidence.record);
    SignedDocumentLoads(w, root, p.acceptedChain, ChainDoc(c), trusted);
    SignedDocumentLoads(w, root, p.relayEvidence, RelayDoc(relays), trusted);
    forall i | 0 <= i < |c.records|
      ensures HeadVerified(w, root, d, c, i, p.heads[i], enrollments)
    {
      assert HeadVerdict(w, root, d, c, p.heads, enrollments)(i);
    }
  }

  lemma LoadedRelay(w: World, root: Root, ref: ArtifactRef)
    ensures LoadRelay(w, root, ref).Some? ==> Load(w, root, ref) == Some(RelayDoc(LoadRelay(w, root, ref).value))
  {
    hide Load;
  }

  /** What a governance record that opens says: signed by an actor under that actor's key, with all evidence at hand. */
  lemma GovernanceStates(w: World, root: Root, d: Definition, refs: SignedRefs, g: Governance)
    requires OpenGovernance(w, root, d, refs) == Some(g)
    ensures g.ceremonyId == d.ceremonyId && 1 <= g.index <= 20 && 1 <= |g.evidence| <= 128
    ensures exists a <- Actors(d) ::
              a.id == g.signerId && a.keyId == g.signerKeyId && SignedDocument(w, root, refs, GovernanceDoc(g), a)
    ensures forall f <- g.evidence :: f.name in root && w.digest(root[f.name]) == f.digest
  {
    hide SignedDocument;
    var signer := ActorById(d, g.signerId).value;
    FirstWithIdIsMember(Actors(d), g.signerId);
    SignedDocumentLoads(w, root, refs, GovernanceDoc(g), signer);
    forall f | f in g.evidence
      ensures f.name in root && w.digest(root[f.name]) == f.digest
    {
      var k :| 0 <= k < |g.evidence| && g.evidence[k] == f;
      assert Loads(w, root, g.evidence[k]);
    }
  }

  /** What a verified bundle says of its ends: its coordinator, its two rounds, and that every actor is enrolled as itself. */
  lemma BundleStates(
    w: World, root: Root, d: Definition, trusted: Identity, b: Bundle,
    close1: AuthenticatedClose, close2: AuthenticatedClose)
    requires BundleVerified(w, root, d, trusted, b, close1, close2)
    ensures b.ceremonyId == d.ceremonyId && b.coordinatorId == d.coordinator.id && b.coordinatorKeyId == d.coordinator.keyId
    ensures close1.record.beaconRound != close2.record.beaconRound
    ensures forall person | person in d.auditors || person in d.roster || person == d.coordinator || person == d.releaseSigner ::
              var enrollments := EnrollmentsOf(w, root, d, b);
              person.id in enrollments && enrollments[person.id].identity == person
    ensures PhaseVerified(w, root, d, trusted, b.phase1, close1, EnrollmentsOf(w, root, d, b))
    ensures PhaseVerified(w, root, d, trusted, b.phase2, close2, EnrollmentsOf(w, root, d, b))
  {
    hide PhaseVerified, ValidDefinition, AllSeparate, RollOf, IsLatest, AllRefs, Agenda, OpenAll, EnrollmentOpener,
      EveryActorEnrolled, EnrollmentsOf, AllReadable, Equivocated;
    ActorsAreEnrolled(d, EnrollmentsOf(w, root, d, b));
    EnrolledByBundle(w, root, d, b);
  }

  lemma EnrolledByBundle(w: World, root: Root, d: Definition, b: Bundle)
    ensures EnrollmentsHold(w, root, d, b.enrollments) ==> EveryActorEnrolled(d, EnrollmentsOf(w, root, d, b))
  {
    hide EveryActorEnrolled, RollOf, AllSeparate, OpenAll, EnrollmentOpener;
  }

  lemma ActorsAreEnrolled(d: Definition, enrollments: Enrollments)
    ensures EveryActorEnrolled(d, enrollments) ==>
              forall person | person in d.auditors || person in d.roster || person == d.coordinator || person == d.releaseSigner ::
                person.id in enrollments && enrollments[person.id].identity == person
  {
    var all := Actors(d);
    assert all[0] == d.coordinator && all[1] == d.releaseSigner;
    assert forall k | 0 <= k < |d.auditors| :: all[2 + k] == d.auditors[k];
    assert forall k | 0 <= k < |d.roster| :: all[2 + |d.auditors| + k] == d.roster[k];
  }

  lemma AssembledAfter(w: World, root: Root, agenda: seq<Timed>, assembledAt: Instant, t: Timed)
    requires AllReadable(w, root, agenda) && t in agenda
    requires exists latest :: IsLatest(Occurring(w, root, agenda), latest) && ZERO_TIME < latest < assembledAt
    ensures Instants(w, root, t).Some?
    ensures forall at | at in Instants(w, root, t).value :: at < assembledAt
    ensures Bounded(w, root, assembledAt, t)
  {
    hide Instants;
    var times := Instants(w, root, t).value;
    assert forall i | 0 <= i < |times| :: times[i] in times;
    forall at | at in Instants(w, root, t).value ensures at < assembledAt {
      assert at in Occurring(w, root, agenda);
    }
  }

  /** Both phases of a verified bundle have a chronology, and no referenced record is as late as the assembly. */
  lemma BundleChronology(
    w: World, root: Root, d: Definition, trusted: Identity, b: Bundle,
    close1: AuthenticatedClose, close2: AuthenticatedClose)
    requires BundleVerified(w, root, d, trusted, b, close1, close2)
    ensures HasChronology(w, root, d, b.phase1, close1.record, EnrollmentsOf(w, root, d, b), b.assembledAt)
    ensures HasChronology(w, root, d, b.phase2, close2.record, EnrollmentsOf(w, root, d, b), b.assembledAt)
    ensures EverythingBefore(w, root, b, b.assembledAt)
  {
    hide EverythingBefore, PhaseVerified, Chronology, Instants, IsLatest, AllSeparate, EveryActorEnrolled, AllRefs, Agenda,
      ValidDefinition, RollOf, EnrollmentOpener, OpenAll;
    var enrollments := EnrollmentsOf(w, root, d, b);
    forall t | t in Agenda(b)
      ensures Instants(w, root, t).Some? && forall at | at in Instants(w, root, t).value :: at < b.assembledAt
      ensures Bounded(w, root, b.assembledAt, t)
    {
      AssembledAfter(w, root, Agenda(b), b.assembledAt, t);
    }
    AgendaIsEverything(w, root, b, b.assembledAt);
    RelaysAreOnAgenda(b);
    var c1, xs1, ys1, e1, round1 :=
      PhaseChronology(w, root, d, trusted, b.phase1, close1, enrollments, b.assembledAt);
    assert Chronology(w, root, d, b.phase1, close1.record, enrollments, b.assembledAt, c1, xs1, ys1, e1, round1);
    var c2, xs2, ys2, e2, round2 :=
      PhaseChronology(w, root, d, trusted, b.phase2, close2, enrollments, b.assembledAt);
    assert Chronology(w, root, d, b.phase2, close2.record, enrollments, b.assembledAt, c2, xs2, ys2, e2, round2);
  }

  // ----- Every dated record -----

  ghost predicate HandedBefore(w: World, root: Root, refs: SignedRefs, at: Instant) {
    var h := LoadHandoff(w, root, refs.record);
    h.Some? && h.value.createdAt < at
  }

  ghost predicate ReceivedBefore(w: World, root: Root, refs: SignedRefs, at: Instant) {
    var r := LoadReceipt(w, root, refs.record);
    r.Some? && r.value.receivedAt < at
  }

  ghost predicate StoredBefore(w: World, root: Root, refs: SignedRefs, at: Instant) {
    var m := LoadMirror(w, root, refs.record);
    m.Some? && m.value.storedAt < at
  }

  ghost predicate HeadBefore(w: World, root: Root, e: HeadEvidence, at: Instant) {
    && HandedBefore(w, root, e.outboundHandoff, at) && ReceivedBefore(w, root, e.outboundReceipt, at)
    && HandedBefore(w, root, e.returnHandoff, at) && ReceivedBefore(w, root, e.returnReceipt, at)
    && (forall m | 0 <= m < |e.mirrorReceipts| :: StoredBefore(w, root, e.mirrorReceipts[m], at))
  }

  ghost predicate ObservedBefore(w: World, root: Root, refs: SignedRefs, at: Instant) {
    var r := LoadWitness(w, root, refs.record);
    r.Some? && r.value.observedAt < at
  }

  ghost predicate PhaseBefore(w: World, root: Root, p: PhaseEvidence, at: Instant) {
    var chain, close := LoadChain(w, root, p.acceptedChain.record), LoadClose(w, root, p.close.record);
    var relays := LoadRelay(w, root, p.relayEvidence.record);
    && chain.Some? && (forall i | 0 <= i < |chain.value.records| :: chain.value.records[i].acceptedAt < at)
    && close.Some? && close.value.closedAt < at
    && (forall k | 0 <= k < |p.heads| :: HeadBefore(w, root, p.heads[k], at))
    && (forall i | 0 <= i < |p.witnessReceipts| :: ObservedBefore(w, root, p.witnessReceipts[i], at))
    && relays.Some? && relays.value.recordedAt < at
    && (forall i | 0 <= i < |relays.value.observations| :: relays.value.observations[i].retrievedAt < at)
  }

  ghost predicate EnrolledBefore(w: World, root: Root, refs: SignedRefs, at: Instant) {
    var r := LoadEnrollment(w, root, refs.record);
    r.Some? && r.value.enrolledAt < at
  }

  ghost predicate RecordedBefore(w: World, root: Root, refs: SignedRefs, at: Instant) {
    var r := LoadGovernance(w, root, refs.record);
    r.Some? && r.value.recordedAt < at
  }

  /** Every enrollment, governance record, acceptance, close, handoff, receipt, mirror, sighting and retrieval. */
  ghost predicate EverythingBefore(w: World, root: Root, b: Bundle, at: Instant) {
    && (forall i | 0 <= i < |b.enrollments| :: EnrolledBefore(w, root, b.enrollments[i], at))
    && (forall i | 0 <= i < |b.governance| :: RecordedBefore(w, root, b.governance[i], at))
    && PhaseBefore(w, root, b.phase1, at) && PhaseBefore(w, root, b.phase2, at)
  }

  ghost predicate Bounded(w: World, root: Root, at: Instant, t: Timed) {
    var times := Instants(w, root, t);
    times.Some? && AllBefore(times.value, at)
  }

  ghost predicate AllBefore(times: seq<Instant>, at: Instant) {
    forall i | 0 <= i < |times| :: times[i] < at
  }

  lemma OneBefore(time: Instant, at: Instant)
    ensures AllBefore([time], at) <==> time < at
  {
    assert [time][0] == time;
  }

  ghost predicate AllBounded(w: World, root: Root, at: Instant, agenda: seq<Timed>) {
    forall i | 0 <= i < |agenda| :: Bounded(w, root, at, agenda[i])
  }

  lemma BoundedAppend(w: World, root: Root, at: Instant, a: seq<Timed>, b: seq<Timed>)
    ensures AllBounded(w, root, at, a + b) <==> AllBounded(w, root, at, a) && AllBounded(w, root, at, b)
  {
    hide Bounded;
    var all := a + b;
    assert forall i | 0 <= i < |a| :: all[i] == a[i];
    assert forall i | 0 <= i < |b| :: all[|a| + i] == b[i];
    if AllBounded(w, root, at, all) {
      forall i | 0 <= i < |b|
        ensures Bounded(w, root, at, b[i])
      {
        assert Bounded(w, root, at, all[|a| + i]);
      }
    }
  }

  lemma BoundedMembers(w: World, root: Root, at: Instant, agenda: seq<Timed>)
    ensures AllBounded(w, root, at, agenda) <==> forall t | t in agenda :: Bounded(w, root, at, t)
  {
    hide Bounded;
  }

  lemma HeadAgendaBounded(w: World, root: Root, at: Instant, e: HeadEvidence)
    ensures AllBounded(w, root, at, HeadAgenda(e)) <==> HeadBefore(w, root, e, at)
  {
    hide LoadHandoff, LoadReceipt, LoadMirror;
    var front := [HandedAt(e.outboundHandoff.record), HandedAt(e.returnHandoff.record),
                  ReceivedAt(e.outboundReceipt.record), ReceivedAt(e.returnReceipt.record)];
    var back := Each(ref => StoredAt(ref), e.mirrorReceipts);
    BoundedAppend(w, root, at, front, back);
    FourBounded(w, root, at, front);
    HandoffBounded(w, root, at, e.outboundHandoff);
    HandoffBounded(w, root, at, e.returnHandoff);
    ReceiptBounded(w, root, at, e.outboundReceipt);
    ReceiptBounded(w, root, at, e.returnReceipt);
    forall m | 0 <= m < |back|
      ensures Bounded(w, root, at, back[m]) <==> StoredBefore(w, root, e.mirrorReceipts[m], at)
    {
      var record := LoadMirror(w, root, e.mirrorReceipts[m].record);
      if record.Some? {
        OneBefore(record.value.storedAt, at);
      }
    }
  }

  lemma HandoffBounded(w: World, root: Root, at: Instant, refs: SignedRefs)
    ensures Bounded(w, root, at, HandedAt(refs.record)) <==> HandedBefore(w, root, refs, at)
  {
    var record := LoadHandoff(w, root, refs.record);
    if record.Some? {
      OneBefore(record.value.createdAt, at);
    }
  }

  lemma ReceiptBounded(w: World, root: Root, at: Instant, refs: SignedRefs)
    ensures Bounded(w, root, at, ReceivedAt(refs.record)) <==> ReceivedBefore(w, root, refs, at)
  {
    var record := LoadReceipt(w, root, refs.record);
    if record.Some? {
      OneBefore(record.value.receivedAt, at);
    }
  }

  lemma FourBounded(w: World, root: Root, at: Instant, agenda: seq<Timed>)
    requires |agenda| == 4
    ensures AllBounded(w, root, at, agenda) <==>
            && Bounded(w, root, at, agenda[0]) && Bounded(w, root, at, agenda[1])
            && Bounded(w, root, at, agenda[2]) && Bounded(w, root, at, agenda[3])
  {
    hide Bounded;
  }

  lemma {:induction false} HeadAgendasBounded(w: World, root: Root, at: Instant, heads: seq<HeadEvidence>)
    ensures AllBounded(w, root, at, HeadAgendas(heads)) <==> forall k | 0 <= k < |heads| :: HeadBefore(w, root, heads[k], at)
  {
    hide HeadBefore, HeadAgenda, Bounded;
    if heads != [] {
      HeadAgendaBounded(w, root, at, heads[0]);
      HeadAgendasBounded(w, root, at, heads[1..]);
      BoundedAppend(w, root, at, HeadAgenda(heads[0]), HeadAgendas(heads[1..]));
      assert forall k | 0 < k < |heads| :: heads[k] == heads[1..][k - 1];
      assert forall k | 0 <= k < |heads[1..]| :: heads[1..][k] == heads[k + 1];
    }
  }

  lemma EndsBounded(w: World, root: Root, at: Instant, p: PhaseEvidence)
    ensures AllBounded(w, root, at, [AcceptedAt(p.acceptedChain.record), ClosedAt(p.close.record)]) <==>
            var chain, close := LoadChain(w, root, p.acceptedChain.record), LoadClose(w, root, p.close.record);
            && chain.Some? && (forall i | 0 <= i < |chain.value.records| :: chain.value.records[i].acceptedAt < at)
            && close.Some? && close.value.closedAt < at
    ensures AllBounded(w, root, at, [RetrievedAt(p.relayEvidence.record)]) <==>
            var relays := LoadRelay(w, root, p.relayEvidence.record);
            && relays.Some? && relays.value.recordedAt < at
            && (forall i | 0 <= i < |relays.value.observations| :: relays.value.observations[i].retrievedAt < at)
  {
    hide LoadChain, LoadClose, LoadRelay;
    var ends := [AcceptedAt(p.acceptedChain.record), ClosedAt(p.close.record)];
    var last := [RetrievedAt(p.relayEvidence.record)];
    assert AllBounded(w, root, at, ends) <==> Bounded(w, root, at, ends[0]) && Bounded(w, root, at, ends[1]);
    assert AllBounded(w, root, at, last) <==> Bounded(w, root, at, last[0]);
    var chain := LoadChain(w, root, p.acceptedChain.record);
    var close, relays := LoadClose(w, root, p.close.record), LoadRelay(w, root, p.relayEvidence.record);
    if chain.Some? {
      AcceptancesBefore(chain.value, at);
    }
    if close.Some? {
      OneBefore(close.value.closedAt, at);
    }
    if relays.Some? {
      RetrievalsBefore(relays.value, at);
    }
  }

  lemma AcceptancesBefore(c: Chain, at: Instant)
    ensures AllBefore(AcceptanceTimes(c), at) <==> forall i | 0 <= i < |c.records| :: c.records[i].acceptedAt < at
  {
    var times := AcceptanceTimes(c);
    assert forall i | 0 <= i < |c.records| :: times[i] == c.records[i].acceptedAt;
  }

  lemma RetrievalsBefore(e: RelayEvidence, at: Instant)
    ensures AllBefore([e.recordedAt] + RetrievalTimes(e), at) <==>
            e.recordedAt < at && forall i | 0 <= i < |e.observations| :: e.observations[i].retrievedAt < at
  {
    var times, all := RetrievalTimes(e), [e.recordedAt] + RetrievalTimes(e);
    assert all[0] == e.recordedAt;
    assert forall i | 0 <= i < |times| :: all[1 + i] == times[i];
    if AllBefore(all, at) {
      forall i | 0 <= i < |e.observations|
        ensures e.observations[i].retrievedAt < at
      {
        assert all[1 + i] < at;
      }
    }
  }

  lemma PhaseAgendaBounded(w: World, root: Root, at: Instant, p: PhaseEvidence)
    ensures AllBounded(w, root, at, PhaseAgenda(p)) <==> PhaseBefore(w, root, p, at)
  {
    hide AllBounded, HeadBefore, HeadAgendas, LoadChain, LoadClose, LoadRelay, Instants;
    var ends := [AcceptedAt(p.acceptedChain.record), ClosedAt(p.close.record)];
    var heads, seen := HeadAgendas(p.heads), Each(ref => ObservedAt(ref), p.witnessReceipts);
    var last := [RetrievedAt(p.relayEvidence.record)];
    BoundedAppend(w, root, at, ends + heads + seen, last);
    BoundedAppend(w, root, at, ends + heads, seen);
    BoundedAppend(w, root, at, ends, heads);
    EndsBounded(w, root, at, p);
    HeadAgendasBounded(w, root, at, p.heads);
    SightingsBounded(w, root, at, p.witnessReceipts);
  }

  lemma SightingsBounded(w: World, root: Root, at: Instant, pairs: seq<SignedRefs>)
    ensures AllBounded(w, root, at, Each(ref => ObservedAt(ref), pairs)) <==>
            forall i | 0 <= i < |pairs| :: ObservedBefore(w, root, pairs[i], at)
  {
    hide LoadWitness;
    var agenda := Each(ref => ObservedAt(ref), pairs);
    forall i | 0 <= i < |pairs|
      ensures Bounded(w, root, at, agenda[i]) <==> ObservedBefore(w, root, pairs[i], at)
    {
      var record := LoadWitness(w, root, pairs[i].record);
      if record.Some? {
        OneBefore(record.value.observedAt, at);
      }
    }
  }

  lemma EnrollmentsBounded(w: World, root: Root, at: Instant, pairs: seq<SignedRefs>)
    ensures AllBounded(w, root, at, Each(ref => EnrolledAt(ref), pairs)) <==>
            forall i | 0 <= i < |pairs| :: EnrolledBefore(w, root, pairs[i], at)
  {
    hide LoadEnrollment;
    var agenda := Each(ref => EnrolledAt(ref), pairs);
    forall i | 0 <= i < |pairs|
      ensures Bounded(w, root, at, agenda[i]) <==> EnrolledBefore(w, root, pairs[i], at)
    {
      var record := LoadEnrollment(w, root, pairs[i].record);
      if record.Some? {
        OneBefore(record.value.enrolledAt, at);
      }
    }
  }

  lemma GovernanceBounded(w: World, root: Root, at: Instant, pairs: seq<SignedRefs>)
    ensures AllBounded(w, root, at, Each(ref => RecordedAt(ref), pairs)) <==>
            forall i | 0 <= i < |pairs| :: RecordedBefore(w, root, pairs[i], at)
  {
    hide LoadGovernance;
    var agenda := Each(ref => RecordedAt(ref), pairs);
    forall i | 0 <= i < |pairs|
      ensures Bounded(w, root, at, agenda[i]) <==> RecordedBefore(w, root, pairs[i], at)
    {
      var record := LoadGovernance(w, root, pairs[i].record);
      if record.Some? {
        OneBefore(record.value.recordedAt, at);
      }
    }
  }

  /** The agenda leaves no dated record of the bundle out. */
  lemma AgendaIsEverything(w: World, root: Root, b: Bundle, at: Instant)
    ensures (forall t | t in Agenda(b) :: Bounded(w, root, at, t)) <==> EverythingBefore(w, root, b, at)
  {
    hide AllBounded, PhaseBefore, PhaseAgenda, EnrolledBefore, RecordedBefore, Bounded;
    var enrolled, recorded := Each(ref => EnrolledAt(ref), b.enrollments), Each(ref => RecordedAt(ref), b.governance);
    var first, second := PhaseAgenda(b.phase1), PhaseAgenda(b.phase2);
    BoundedMembers(w, root, at, Agenda(b));
    BoundedAppend(w, root, at, enrolled + recorded + first, second);
    BoundedAppend(w, root, at, enrolled + recorded, first);
    BoundedAppend(w, root, at, enrolled, recorded);
    EnrollmentsBounded(w, root, at, b.enrollments);
    GovernanceBounded(w, root, at, b.governance);
    PhaseAgendaBounded(w, root, at, b.phase1);
    PhaseAgendaBounded(w, root, at, b.phase2);
  }

  lemma RelaysAreOnAgenda(b: Bundle)
    ensures RetrievedAt(b.phase1.relayEvidence.record) in Agenda(b)
    ensures RetrievedAt(b.phase2.relayEvidence.record) in Agenda(b)
  {
    assert RetrievedAt(b.phase1.relayEvidence.record) in PhaseAgenda(b.phase1);
    assert RetrievedAt(b.phase2.relayEvidence.record) in PhaseAgenda(b.phase2);
  }

  /** The mirror receipts of a verified head open, and their operators are enrolled mirror operators. */
  lemma HeadMirror(
    w: World, root: Root, d: Definition, c: Chain, heads: seq<HeadEvidence>, enrollments: Enrollments,
    k: nat, m: nat) returns (mirror: Identity)
    requires HeadsVerified(w, root, d, c, heads, enrollments)
    requires k < |heads| && m < |heads[k].mirrorReceipts|
    ensures k < |c.records|
    ensures var receipt := OpenMirror(w, root, d, c.phase, c.records[k], heads[k], enrollments, heads[k].mirrorReceipts[m]);
            receipt.Some? && receipt.value.mirror == mirror
    ensures EnrolledAs(enrollments, mirror, MirrorRole)
  {
    hide OpenDossier, DossierCoheres, EnrolledAs, LoadMirror, SignedBy, MirrorFiles;
    assert HeadVerdict(w, root, d, c, heads, enrollments)(k);
    var open := MirrorOpener(w, root, d, c.phase, c.records[k], heads[k], enrollments);
    var mirrors := OpenAll(open, heads[k].mirrorReceipts, |heads[k].mirrorReceipts|).value;
    OpenEach(open, heads[k].mirrorReceipts, mirrors, m);
    mirror := mirrors[m];
  }

  /**
   In a verified phase at least two witnesses saw the closure, all different people and none a ceremony actor;
   and the operator behind a mirror receipt of any head is no ceremony actor either, and none of the witnesses.
   */
  lemma WitnessesAreIndependent(
    w: World, root: Root, d: Definition, trusted: Identity, b: Bundle, p: PhaseEvidence, close: AuthenticatedClose,
    records: seq<Enrollment>, sightings: seq<WitnessReceipt>, i: nat, c: Chain, k: nat, m: nat)
    returns (mirror: Identity)
    requires OpenAll(EnrollmentOpener(w, root, d), b.enrollments, |b.enrollments|) == Some(records)
    requires AllSeparate(records)
    requires OpenAll(SightingOpener(w, root, d, close.record, RollOf(records).byId),
                     p.witnessReceipts, |p.witnessReceipts|) == Some(sightings)
    requires PhaseVerified(w, root, d, trusted, p, close, RollOf(records).byId)
    requires LoadChain(w, root, p.acceptedChain.record) == Some(c)
    requires i < |sightings| && k < |p.heads| && m < |p.heads[k].mirrorReceipts|
    ensures |sightings| >= 2 && DistinctPeople(Observers(sightings)) && k < |c.records|
    ensures var receipt := OpenMirror(w, root, d, c.phase, c.records[k], p.heads[k], RollOf(records).byId,
                                      p.heads[k].mirrorReceipts[m]);
            receipt.Some? && receipt.value.mirror == mirror
    ensures !Overlaps(d, sightings[i].observer) && !Overlaps(d, mirror)
    ensures sightings[i].observer.id != mirror.id && sightings[i].observer.fingerprint != mirror.fingerprint
  {
    hide CloseAuthentic, ChainAuthentic, HeadsVerified, RelaysAuthentic, LoadChain, Overlaps, WitnessBinds, RollOf,
      OpenMirror, EnrolledAs;
    SightingBinds(w, root, d, close.record, RollOf(records).byId, p.witnessReceipts, sightings, i);
    mirror := HeadMirror(w, root, d, c, p.heads, RollOf(records).byId, k, m);
    OutsidersAreIndependent(w, root, d, b.enrollments, records, sightings[i].observer, mirror);
  }
}
