/** Publication of a closed phase: the public-witness quorum before the beacon, and the relay responses after it. */
module Publication {
  import opened Common
  import opened Records
  import opened Definitions
  import opened Lifecycle
  import opened Evidence
  import opened Custody
  import opened Witnesses
  import opened Order
  import References

  // ----- Public witnesses -----

  /** ValidatePublicWitnessReceipt: an outsider saw exactly this closure, with the signed lead before the round. */
  predicate WitnessBinds(w: World, d: Definition, close: CloseRecord, r: WitnessReceipt) {
    && ValidDefinition(w.oracles, d) && ValidCloseRecord(w.oracles, close) && ValidWitness(w, r)
    && !Overlaps(d, r.observer)
    && RoundTime(close.beaconRound) == Some(r.beaconScheduledAt)
    && close.closedAt < r.observedAt < r.beaconScheduledAt
    && r.beaconScheduledAt - r.observedAt >= d.beaconPolicy.minimumLeadSeconds * SECOND
    && r.ceremonyId == d.ceremonyId == close.ceremonyId && r.phase == close.phase
    && r.closeId == close.closeId && r.chainHeadId == close.chainHeadId && r.beaconRound == close.beaconRound
    && r.closure.digest == w.digest(CloseDoc(close))
  }

  function OpenSighting(
    w: World, root: Root, d: Definition, close: CloseRecord, enrollments: Enrollments, refs: SignedRefs)
    : Option<WitnessReceipt>
  {
    match LoadWitness(w, root, refs.record)
    case None => None
    case Some(r) =>
      if && EnrolledAs(enrollments, r.observer, WitnessRole)
         && SignedBy(w, root, refs, r.observer)
         && WitnessBinds(w, d, close, r)
      then Some(r) else None
  }

  function SightingOpener(w: World, root: Root, d: Definition, close: CloseRecord, enrollments: Enrollments)
    : SignedRefs -> Option<WitnessReceipt>
  {
    refs => OpenSighting(w, root, d, close, enrollments, refs)
  }

  predicate SameScope(a: WitnessReceipt, b: WitnessReceipt) {
    && a.ceremonyId == b.ceremonyId && a.phase == b.phase && a.closeId == b.closeId
    && a.chainHeadId == b.chainHeadId && a.closure == b.closure
    && a.beaconRound == b.beaconRound && a.beaconScheduledAt == b.beaconScheduledAt
  }

  function Observers(receipts: seq<WitnessReceipt>): (people: seq<Identity>)
    ensures |people| == |receipts|
  {
    if receipts == [] then []
    else Observers(receipts[..|receipts| - 1]) + [receipts[|receipts| - 1].observer]
  }

  lemma {:induction false} ObserversFront(receipts: seq<WitnessReceipt>, count: nat)
    requires count <= |receipts|
    ensures Observers(receipts[..count]) == Observers(receipts)[..count]
  {
    if count == |receipts| {
      assert receipts[..count] == receipts;
    } else {
      var front := receipts[..|receipts| - 1];
      ObserversFront(front, count);
      assert front[..count] == receipts[..count];
    }
  }

  /** By distinct people, about one and the same closure. */
  predicate Concur(receipts: seq<WitnessReceipt>) {
    && DistinctPeople(Observers(receipts))
    && forall i | 0 <= i < |receipts| :: SameScope(receipts[i], receipts[0])
  }

  lemma ConcurFront(receipts: seq<WitnessReceipt>, count: nat)
    requires count <= |receipts|
    ensures Concur(receipts) ==> Concur(receipts[..count])
  {
    ObserversFront(receipts, count);
    DistinctFront(Observers(receipts), count);
  }

  lemma ConcurStep(receipts: seq<WitnessReceipt>, next: WitnessReceipt)
    requires Concur(receipts)
    ensures Observers(receipts + [next]) == Observers(receipts) + [next.observer]
    ensures Concur(receipts + [next]) <==>
            && next.observer.id !in Ids(Observers(receipts))
            && next.observer.fingerprint !in Keys(Observers(receipts))
            && (receipts == [] || SameScope(next, receipts[0]))
  {
    var longer := receipts + [next];
    assert longer[..|receipts|] == receipts;
    DistinctStep(Observers(receipts), next.observer);
    if receipts != [] {
      assert longer[|receipts|] == next && longer[0] == receipts[0];
      assert SameScope(next, receipts[0]) ==> forall i | 0 <= i < |longer| :: SameScope(longer[i], longer[0]);
    }
  }

  /** At least the quorum, all opening and concurring. */
  predicate QuorumHolds(open: SignedRefs -> Option<WitnessReceipt>, pairs: seq<SignedRefs>, minimum: U8) {
    var receipts := OpenAll(open, pairs, |pairs|);
    2 <= minimum <= |pairs| && receipts.Some? && Concur(receipts.value)
  }

  lemma {:induction false} ObserverAt(receipts: seq<WitnessReceipt>, i: nat)
    requires i < |receipts|
    ensures Observers(receipts)[i] == receipts[i].observer
  {
    if i < |receipts| - 1 {
      ObserverAt(receipts[..|receipts| - 1], i);
    }
  }

  /** What a quorum says of any two of its receipts: two observers, two keys, and one closure with one round. */
  lemma QuorumStates(
    open: SignedRefs -> Option<WitnessReceipt>, pairs: seq<SignedRefs>, minimum: U8, receipts: seq<WitnessReceipt>, i: nat, j: nat)
    requires QuorumHolds(open, pairs, minimum) && OpenAll(open, pairs, |pairs|) == Some(receipts)
    requires i < j < |receipts|
    ensures 2 <= minimum <= |receipts| == |pairs|
    ensures receipts[i].observer.id != receipts[j].observer.id
    ensures receipts[i].observer.fingerprint != receipts[j].observer.fingerprint
    ensures receipts[i].ceremonyId == receipts[j].ceremonyId && receipts[i].phase == receipts[j].phase
    ensures receipts[i].closeId == receipts[j].closeId && receipts[i].chainHeadId == receipts[j].chainHeadId
    ensures receipts[i].closure == receipts[j].closure && receipts[i].beaconRound == receipts[j].beaconRound
    ensures receipts[i].beaconScheduledAt == receipts[j].beaconScheduledAt
  {
    ObserverAt(receipts, i);
    ObserverAt(receipts, j);
    assert SameScope(receipts[i], receipts[0]) && SameScope(receipts[j], receipts[0]);
  }

  method VerifyQuorum(open: SignedRefs -> Option<WitnessReceipt>, pairs: seq<SignedRefs>, minimum: U8)
    returns (ok: bool)
    ensures ok <==> QuorumHolds(open, pairs, minimum)
  {
    hide Concur, DistinctPeople;
    if minimum < 2 || |pairs| < minimum {
      return false;
    }
    ghost var all := OpenAll(open, pairs, |pairs|);
    ghost var receipts: seq<WitnessReceipt> := [];
    var seenIds: set<Id>, seenKeys: set<Id> := {}, {};
    var common: Option<WitnessReceipt> := None;
    NoneConcur();
    for i := 0 to |pairs|
      invariant OpenAll(open, pairs, i) == Some(receipts) && Concur(receipts)
      invariant seenIds == Ids(Observers(receipts)) && seenKeys == Keys(Observers(receipts))
      invariant common == if receipts == [] then None else Some(receipts[0])
    {
      OpenPrefix(open, pairs, i + 1, |pairs|);
      if all.Some? {
        ConcurFront(all.value, i + 1);
      }
      var next := open(pairs[i]);
      if next.None? {
        return false;
      }
      var r := next.value;
      ConcurStep(receipts, r);
      DistinctStep(Observers(receipts), r.observer);
      if r.observer.id in seenIds || r.observer.fingerprint in seenKeys {
        return false;
      }
      seenIds := seenIds + {r.observer.id};
      seenKeys := seenKeys + {r.observer.fingerprint};
      if common.None? {
        common := Some(r);
      } else if !SameScope(r, common.value) {
        return false;
      }
      receipts := receipts + [r];
    }
    ok := true;
  }

  lemma NoneConcur()
    ensures Concur([])
  {
  }

  // ----- Relay responses -----

  datatype RelayFault = CountMismatch | Unreadable | Duplicated | Unnamed | Missing | Disagrees

  predicate DistinctRelays(observations: seq<Observation>) {
    forall i, j | 0 <= i < j < |observations| :: observations[i].relayId != observations[j].relayId
  }

  predicate DistinctRefs(refs: seq<ArtifactRef>) {
    forall i, j | 0 <= i < j < |refs| :: refs[i] != refs[j]
  }

  lemma {:induction false} OrderedSetIsDistinct(refs: seq<ArtifactRef>)
    requires ArtifactSet(refs)
    ensures DistinctRefs(refs)
  {
    var names := References.Names(refs);
    forall i, j | 0 <= i < j < |refs| ensures refs[i] != refs[j] {
      AdjacentOrder(names, i, j);
      LessIrreflexive(names[i]);
    }
  }

  predicate NamedBy(ref: ArtifactRef, observations: seq<Observation>) {
    exists k | 0 <= k < |observations| :: observations[k].rawResponse == ref
  }

  /** Every response is read and named by an observation. */
  predicate ResponsesNamed(w: World, root: Root, refs: seq<ArtifactRef>, observations: seq<Observation>) {
    && |refs| == |observations|
    && forall i | 0 <= i < |refs| :: Loads(w, root, refs[i]) && NamedBy(refs[i], observations)
  }

  /** `image[i]` is the observation that names reference `i`. */
  ghost predicate Matching(refs: seq<ArtifactRef>, observations: seq<Observation>, image: seq<nat>) {
    && |image| <= |refs|
    && (forall i | 0 <= i < |image| :: image[i] < |observations| && observations[image[i]].rawResponse == refs[i])
    && (forall i, j | 0 <= i < j < |image| :: image[i] != image[j])
  }

  /** The responses read so far, by relay. */
  ghost predicate Gathered(
    w: World, root: Root, refs: seq<ArtifactRef>, observations: seq<Observation>, image: seq<nat>,
    raw: map<Id, Document>)
    requires Matching(refs, observations, image)
  {
    && (forall i | 0 <= i < |image| ::
          && observations[image[i]].relayId in raw
          && Load(w, root, refs[i]) == Some(raw[observations[image[i]].relayId]))
    && (forall id | id in raw :: exists i | 0 <= i < |image| :: observations[image[i]].relayId == id)
  }

  /** A reference no earlier one equals is named by a relay no earlier one used. */
  lemma FreshRelay(
    w: World, root: Root, refs: seq<ArtifactRef>, observations: seq<Observation>, image: seq<nat>,
    raw: map<Id, Document>, k: nat)
    requires DistinctRefs(refs) && DistinctRelays(observations)
    requires Matching(refs, observations, image) && Gathered(w, root, refs, observations, image, raw)
    requires |image| < |refs| && k < |observations| && observations[k].rawResponse == refs[|image|]
    ensures observations[k].relayId !in raw
    ensures Matching(refs, observations, image + [k])
  {
    forall i | 0 <= i < |image| ensures image[i] != k && observations[image[i]].relayId != observations[k].relayId {
      assert refs[i] != refs[|image|];
    }
  }

  lemma GatherStep(
    w: World, root: Root, refs: seq<ArtifactRef>, observations: seq<Observation>, image: seq<nat>,
    raw: map<Id, Document>, k: nat, doc: Document)
    requires Matching(refs, observations, image + [k]) && |image| < |refs| && k < |observations|
    requires Matching(refs, observations, image) && Gathered(w, root, refs, observations, image, raw)
    requires observations[k].relayId !in raw && Load(w, root, refs[|image|]) == Some(doc)
    ensures Gathered(w, root, refs, observations, image + [k], raw[observations[k].relayId := doc])
  {
    var longer, after := image + [k], raw[observations[k].relayId := doc];
    forall i | 0 <= i < |longer|
      ensures observations[longer[i]].relayId in after
      ensures Load(w, root, refs[i]) == Some(after[observations[longer[i]].relayId])
    {
      assert i < |image| ==> longer[i] == image[i];
    }
    forall id | id in after ensures exists i | 0 <= i < |longer| :: observations[longer[i]].relayId == id {
      if id in raw {
        var i :| 0 <= i < |image| && observations[image[i]].relayId == id;
        assert observations[longer[i]].relayId == id;
      } else {
        assert observations[longer[|image|]].relayId == id;
      }
    }
  }

  /** The first observation naming `ref`, or their number. */
  method FindObservation(ref: ArtifactRef, observations: seq<Observation>) returns (k: nat)
    ensures k <= |observations|
    ensures k < |observations| ==> observations[k].rawResponse == ref
    ensures k == |observations| ==> !NamedBy(ref, observations)
  {
    k := 0;
    while k < |observations|
      invariant k <= |observations| && forall j | 0 <= j < k :: observations[j].rawResponse != ref
    {
      if observations[k].rawResponse == ref {
        return;
      }
      k := k + 1;
    }
  }

  /**
   The raw-response loop. Given distinct references and relays it succeeds exactly when the counts agree and every
   reference is read and named; then references and observations match one to one and every relay has its response.
   No relay is ever found duplicated.
   */
  method MatchResponses(w: World, root: Root, refs: seq<ArtifactRef>, observations: seq<Observation>)
    returns (fault: Option<RelayFault>, raw: map<Id, Document>)
    requires DistinctRefs(refs) && DistinctRelays(observations)
    ensures fault.None? <==> ResponsesNamed(w, root, refs, observations)
    ensures fault.Some? ==> fault.value in {CountMismatch, Unreadable, Unnamed}
    ensures fault.None? ==> |raw| == |observations|
    ensures fault.None? ==> forall k | 0 <= k < |observations| ::
              && observations[k].relayId in raw
              && observations[k].rawResponse in refs
              && Load(w, root, observations[k].rawResponse) == Some(raw[observations[k].relayId])
  {
    hide Load;
    raw := map[];
    if |refs| != |observations| {
      return Some(CountMismatch), raw;
    }
    ghost var image: seq<nat> := [];
    for i := 0 to |refs|
      invariant |image| == |raw| == i && Matching(refs, observations, image)
      invariant Gathered(w, root, refs, observations, image, raw)
      invariant forall k | 0 <= k < i :: Loads(w, root, refs[k]) && NamedBy(refs[k], observations)
    {
      var loaded := Load(w, root, refs[i]);
      if loaded.None? {
        return Some(Unreadable), raw;
      }
      var k := FindObservation(refs[i], observations);
      if k == |observations| {
        return Some(Unnamed), raw;
      }
      FreshRelay(w, root, refs, observations, image, raw, k);
      if observations[k].relayId in raw {
        return Some(Duplicated), raw;
      }
      GatherStep(w, root, refs, observations, image, raw, k, loaded.value);
      image := image + [k];
      raw := raw[observations[k].relayId := loaded.value];
    }
    EveryRelayMatched(w, root, refs, observations, image, raw);
    fault := None;
  }

  /** Equal counts turn the injection into a bijection. */
  lemma EveryRelayMatched(
    w: World, root: Root, refs: seq<ArtifactRef>, observations: seq<Observation>, image: seq<nat>,
    raw: map<Id, Document>)
    requires Matching(refs, observations, image) && Gathered(w, root, refs, observations, image, raw)
    requires |image| == |refs| == |observations|
    ensures forall k | 0 <= k < |observations| ::
              && observations[k].relayId in raw
              && observations[k].rawResponse in refs
              && Load(w, root, observations[k].rawResponse) == Some(raw[observations[k].relayId])
  {
    forall k | 0 <= k < |observations|
      ensures observations[k].relayId in raw && observations[k].rawResponse in refs
      ensures Load(w, root, observations[k].rawResponse) == Some(raw[observations[k].relayId])
    {
      var i := InjectionIsOnto(|refs|, image, k);
      assert refs[i] == observations[k].rawResponse;
    }
  }

  // ----- Relay evidence against the close -----

  /** One relay's response verifies to the recorded randomness and was retrieved no earlier than the round. */
  predicate ResponseHolds(w: World, d: Definition, close: CloseRecord, round: Instant, o: Observation, doc: Document) {
    && w.digest(doc) == o.rawResponse.digest
    && w.drand(d.beaconPolicy, close.beaconRound, doc) == Some(o.randomness)
    && o.retrievedAt >= round
  }

  predicate RelayBinds(w: World, d: Definition, close: CloseRecord, e: RelayEvidence) {
    && ValidDefinition(w.oracles, d) && ValidCloseRecord(w.oracles, close) && ValidRelay(w, e)
    && e.ceremonyId == d.ceremonyId == close.ceremonyId && e.phase == close.phase && e.closeId == close.closeId
    && e.beaconRound == close.beaconRound
    && e.provider == d.beaconPolicy.provider && e.network == d.beaconPolicy.network
    && e.coordinatorId == d.coordinator.id && e.coordinatorKeyId == d.coordinator.keyId
    && RoundTime(close.beaconRound).Some?
  }

  /** ValidateMultiRelayBeaconEvidence over the gathered responses. A relay all of whose peers are present is never missing. */
  method ValidateRelays(w: World, d: Definition, close: CloseRecord, e: RelayEvidence, raw: map<Id, Document>)
    returns (fault: Option<RelayFault>)
    ensures fault.None? <==>
            && RelayBinds(w, d, close, e)
            && forall k | 0 <= k < |e.observations| ::
                 && e.observations[k].relayId in raw
                 && ResponseHolds(w, d, close, RoundTime(close.beaconRound).value,
                                  e.observations[k], raw[e.observations[k].relayId])
    ensures fault.Some? ==> fault.value in {Missing, Disagrees}
    ensures (forall k | 0 <= k < |e.observations| :: e.observations[k].relayId in raw) ==> fault != Some(Missing)
  {
    if !RelayBinds(w, d, close, e) {
      return Some(Disagrees);
    }
    var round := RoundTime(close.beaconRound).value;
    for i := 0 to |e.observations|
      invariant forall k | 0 <= k < i ::
                  && e.observations[k].relayId in raw
                  && ResponseHolds(w, d, close, round, e.observations[k], raw[e.observations[k].relayId])
    {
      if e.observations[i].relayId !in raw {
        return Some(Missing);
      }
      if !ResponseHolds(w, d, close, round, e.observations[i], raw[e.observations[i].relayId]) {
        return Some(Disagrees);
      }
    }
    fault := None;
  }

  /** The relay evidence of a phase, without any intermediate map. */
  predicate RelaysHold(w: World, root: Root, d: Definition, close: CloseRecord, e: RelayEvidence, refs: seq<ArtifactRef>) {
    && ResponsesNamed(w, root, refs, e.observations)
    && RelayBinds(w, d, close, e)
    && forall k | 0 <= k < |e.observations| ::
         var response := Load(w, root, e.observations[k].rawResponse);
         && response.Some?
         && ResponseHolds(w, d, close, RoundTime(close.beaconRound).value, e.observations[k], response.value)
  }

  /** Both loops in sequence: neither the duplicate nor the missing branch is ever taken. */
  method VerifyRelays(
    w: World, root: Root, d: Definition, close: CloseRecord, e: RelayEvidence, refs: seq<ArtifactRef>)
    returns (fault: Option<RelayFault>)
    requires ArtifactSet(refs) && ValidRelay(w, e)
    ensures fault.None? <==> RelaysHold(w, root, d, close, e, refs)
    ensures fault != Some(Duplicated) && fault != Some(Missing)
  {
    hide ResponseHolds, RelayBinds, Load;
    OrderedSetIsDistinct(refs);
    RelaysAreDistinct(w, e);
    var raw;
    fault, raw := MatchResponses(w, root, refs, e.observations);
    if fault.Some? {
      return;
    }
    fault := ValidateRelays(w, d, close, e, raw);
  }

  lemma RelaysAreDistinct(w: World, e: RelayEvidence)
    requires ValidRelay(w, e)
    ensures DistinctRelays(e.observations)
  {
    forall i, j | 0 <= i < j < |e.observations| ensures e.observations[i].relayId != e.observations[j].relayId {
      assert Independent(e.observations[i], e.observations[j]);
    }
  }

  /** All relays of verified evidence returned responses that verify to one common randomness. */
  lemma RelaysAgree(
    w: World, root: Root, d: Definition, close: CloseRecord, e: RelayEvidence, refs: seq<ArtifactRef>, j: nat, k: nat)
    requires RelaysHold(w, root, d, close, e, refs) && j < |e.observations| && k < |e.observations|
    ensures var p, q := Load(w, root, e.observations[j].rawResponse), Load(w, root, e.observations[k].rawResponse);
            && p.Some? && q.Some?
            && w.drand(d.beaconPolicy, close.beaconRound, p.value).Some?
            && w.drand(d.beaconPolicy, close.beaconRound, p.value) == w.drand(d.beaconPolicy, close.beaconRound, q.value)
  {
    hide Load, ValidDefinition, ValidCloseRecord;
  }
}
