/** The ceremony definition: its identity, the distinctness of everyone named in it, and role lookup. */
module Definitions {
  import opened Common
  import opened Records

  const PRODUCTION_MINIMUM_LEAD_SECONDS: U32 := 86400

  /** Coordinator, release signer, auditors and participants, in that order. */
  function Actors(d: Definition): (actors: seq<Identity>)
    ensures |actors| == 2 + |d.auditors| + |d.roster|
  {
    [d.coordinator, d.releaseSigner] + d.auditors + d.roster
  }

  /** No two of them share an id, a key id or a public key. */
  predicate PairwiseDistinct(actors: seq<Identity>) {
    forall i, j | 0 <= i < j < |actors| :: Unrelated(actors[i], actors[j])
  }

  predicate Unrelated(a: Identity, b: Identity) {
    a.id != b.id && a.keyId != b.keyId && a.fingerprint != b.fingerprint
  }

  predicate ValidPolicy(p: PhasePolicy, roster: seq<Identity>) {
    && 1 <= |p.participants| <= MAX_PARTICIPANTS
    && 1 <= p.minimum <= |p.participants|
    && (forall i | 0 <= i < |p.participants| :: Enrolled(p.participants[i], roster))
    && (forall i, j | 0 <= i < j < |p.participants| :: p.participants[i] != p.participants[j])
  }

  predicate Enrolled(id: Id, roster: seq<Identity>) {
    exists k | 0 <= k < |roster| :: roster[k].id == id
  }

  predicate ProductionRules(d: Definition) {
    && d.beaconPolicy.minimumLeadSeconds >= PRODUCTION_MINIMUM_LEAD_SECONDS
    && |d.roster| >= 2
    && |d.phase1Policy.participants| >= 2
    && d.phase1Policy.minimum == |d.phase1Policy.participants|
    && |d.phase2Policy.participants| >= 2
    && d.phase2Policy.minimum == |d.phase2Policy.participants|
  }

  predicate ValidBody(o: Oracles, d: Definition) {
    && o.formatted(Root(d.(ceremonyId := "")))
    && |d.auditors| >= 2
    && 1 <= |d.roster| <= MAX_PARTICIPANTS
    && PairwiseDistinct(Actors(d))
    && ValidPolicy(d.phase1Policy, d.roster)
    && ValidPolicy(d.phase2Policy, d.roster)
    && (d.mode.Production? ==> ProductionRules(d))
    && d.beaconPolicy.minimumLeadSeconds > 0
  }

  predicate ValidDefinition(o: Oracles, d: Definition) {
    ValidBody(o, d) && d.ceremonyId == o.hash(Root(d.(ceremonyId := "")))
  }

  /** What a valid definition says of the people in it: all of them differ in id, key id and public key. */
  lemma DefinitionStates(o: Oracles, d: Definition)
    requires ValidDefinition(o, d)
    ensures forall i, j | 0 <= i < |d.roster| && 0 <= j < |d.auditors| ::
              && d.roster[i].id != d.auditors[j].id && d.roster[i].keyId != d.auditors[j].keyId
              && d.roster[i].fingerprint != d.auditors[j].fingerprint
    ensures forall i, j | 0 <= i < j < |d.roster| ::
              && d.roster[i].id != d.roster[j].id && d.roster[i].keyId != d.roster[j].keyId
              && d.roster[i].fingerprint != d.roster[j].fingerprint
    ensures forall i, j | 0 <= i < j < |d.auditors| ::
              && d.auditors[i].id != d.auditors[j].id && d.auditors[i].keyId != d.auditors[j].keyId
              && d.auditors[i].fingerprint != d.auditors[j].fingerprint
    ensures forall p | p in d.roster || p in d.auditors ::
              && p.id != d.coordinator.id && p.keyId != d.coordinator.keyId && p.fingerprint != d.coordinator.fingerprint
              && p.id != d.releaseSigner.id && p.keyId != d.releaseSigner.keyId && p.fingerprint != d.releaseSigner.fingerprint
    ensures d.coordinator.id != d.releaseSigner.id && d.coordinator.keyId != d.releaseSigner.keyId
            && d.coordinator.fingerprint != d.releaseSigner.fingerprint
    ensures |d.auditors| >= 2 && 1 <= |d.roster| <= 20
    ensures forall policy | policy in {d.phase1Policy, d.phase2Policy} :: 1 <= policy.minimum <= |policy.participants| <= 20
    ensures d.mode.Production? ==>
              && |d.roster| >= 2
              && d.beaconPolicy.minimumLeadSeconds >= 86400
              && d.phase1Policy.minimum == |d.phase1Policy.participants| >= 2
              && d.phase2Policy.minimum == |d.phase2Policy.participants| >= 2
    ensures d.ceremonyId == o.hash(Root(d.(ceremonyId := "")))
  {
    hide Actors;
    ActorsAreUnrelated(d);
  }

  /** Whom a valid definition schedules in a phase: different people, each of them on the roster. */
  lemma PolicyStates(o: Oracles, d: Definition, phase: Phase, i: nat, j: nat)
    requires ValidDefinition(o, d) && i < |d.Policy(phase).participants|
    ensures exists p <- d.roster :: p.id == d.Policy(phase).participants[i]
    ensures j < i ==> d.Policy(phase).participants[j] != d.Policy(phase).participants[i]
  {
    hide PairwiseDistinct, ProductionRules;
    var policy := d.Policy(phase);
    assert ValidPolicy(policy, d.roster);
    var k :| 0 <= k < |d.roster| && d.roster[k].id == policy.participants[i];
    assert d.roster[k] in d.roster;
  }

  lemma ActorsAreUnrelated(d: Definition)
    requires PairwiseDistinct(Actors(d))
    ensures forall i, j | 0 <= i < |d.roster| && 0 <= j < |d.auditors| :: Unrelated(d.auditors[j], d.roster[i])
    ensures forall i, j | 0 <= i < j < |d.roster| :: Unrelated(d.roster[i], d.roster[j])
    ensures forall i, j | 0 <= i < j < |d.auditors| :: Unrelated(d.auditors[i], d.auditors[j])
    ensures forall p | p in d.roster || p in d.auditors :: Unrelated(d.coordinator, p) && Unrelated(d.releaseSigner, p)
    ensures Unrelated(d.coordinator, d.releaseSigner)
  {
    hide Unrelated;
    var all, people := Actors(d), d.auditors + d.roster;
    assert all[0] == d.coordinator && all[1] == d.releaseSigner;
    assert forall k | 0 <= k < |people| :: all[2 + k] == people[k];
    assert forall i | 0 <= i < |d.auditors| :: all[2 + i] == d.auditors[i];
    assert forall i | 0 <= i < |d.roster| :: all[2 + |d.auditors| + i] == d.roster[i];
    forall i, j | 0 <= i < |d.roster| && 0 <= j < |d.auditors|
      ensures Unrelated(d.auditors[j], d.roster[i])
    {
      assert Unrelated(all[2 + j], all[2 + |d.auditors| + i]);
    }
    forall i, j | 0 <= i < j < |d.roster|
      ensures Unrelated(d.roster[i], d.roster[j])
    {
      assert Unrelated(all[2 + |d.auditors| + i], all[2 + |d.auditors| + j]);
    }
    forall i, j | 0 <= i < j < |d.auditors|
      ensures Unrelated(d.auditors[i], d.auditors[j])
    {
      assert Unrelated(all[2 + i], all[2 + j]);
    }
    forall p | p in d.roster || p in d.auditors
      ensures Unrelated(d.coordinator, p) && Unrelated(d.releaseSigner, p)
    {
      assert p in people;
      var k :| 0 <= k < |people| && people[k] == p;
      assert Unrelated(all[0], all[2 + k]) && Unrelated(all[1], all[2 + k]);
    }
    assert Unrelated(all[0], all[1]);
  }

  // ----- The validation loops -----

  /** The three maps of identity ids, key ids and fingerprints seen so far. */
  datatype Seen = Seen(ids: set<Id>, keyIds: set<Id>, fingerprints: set<Id>) {
    predicate Clashes(identity: Identity) {
      identity.id in ids || identity.keyId in keyIds || identity.fingerprint in fingerprints
    }

    function Add(identity: Identity): Seen {
      Seen(ids + {identity.id}, keyIds + {identity.keyId}, fingerprints + {identity.fingerprint})
    }
  }

  ghost function SeenOf(actors: seq<Identity>): Seen {
    Seen(set a | a in actors :: a.id, set a | a in actors :: a.keyId, set a | a in actors :: a.fingerprint)
  }

  lemma SeenGrows(actors: seq<Identity>, next: Identity)
    ensures SeenOf(actors + [next]) == SeenOf(actors).Add(next)
  {
    var after := actors + [next];
    assert forall a | a in actors :: a in after;
    assert next in after;
  }

  lemma DistinctGrows(actors: seq<Identity>, next: Identity)
    requires PairwiseDistinct(actors)
    ensures PairwiseDistinct(actors + [next]) <==> !SeenOf(actors).Clashes(next)
  {
    var after := actors + [next];
    if !SeenOf(actors).Clashes(next) {
      forall i, j | 0 <= i < j < |after| ensures Unrelated(after[i], after[j]) {
        if j == |actors| {
          assert actors[i] in actors;
        }
      }
    } else {
      var a :| a in actors && !Unrelated(a, next);
      var i :| 0 <= i < |actors| && actors[i] == a;
      assert !Unrelated(after[i], after[|actors|]);
    }
  }

  lemma DistinctPrefix(actors: seq<Identity>, count: nat)
    requires count <= |actors|
    ensures PairwiseDistinct(actors) ==> PairwiseDistinct(actors[..count])
  {
  }

  /** Extends the maps by `more`, stopping at the first clash with anyone before. */
  method Admit(ghost before: seq<Identity>, seen: Seen, more: seq<Identity>) returns (ok: bool, after: Seen)
    requires PairwiseDistinct(before) && seen == SeenOf(before)
    ensures ok <==> PairwiseDistinct(before + more)
    ensures ok ==> after == SeenOf(before + more)
  {
    after := seen;
    assert before + more[..0] == before;
    for i := 0 to |more|
      invariant PairwiseDistinct(before + more[..i])
      invariant after == SeenOf(before + more[..i])
    {
      assert before + more[..i + 1] == before + more[..i] + [more[i]];
      DistinctGrows(before + more[..i], more[i]);
      SeenGrows(before + more[..i], more[i]);
      if after.Clashes(more[i]) {
        DistinctPrefix(before + more, |before| + i + 1);
        assert (before + more)[..|before| + i + 1] == before + more[..i + 1];
        return false, after;
      }
      after := after.Add(more[i]);
    }
    assert before + more[..|more|] == before + more;
    ok := true;
  }

  method ValidatePolicy(p: PhasePolicy, roster: seq<Identity>) returns (ok: bool)
    ensures ok <==> ValidPolicy(p, roster)
  {
    if |p.participants| == 0 || |p.participants| > MAX_PARTICIPANTS {
      return false;
    }
    if p.minimum == 0 || p.minimum > |p.participants| {
      return false;
    }
    var rosterIds := set a | a in roster :: a.id;
    forall id ensures id in rosterIds <==> Enrolled(id, roster) {
      if id in rosterIds {
        var a :| a in roster && a.id == id;
      }
    }
    var seen: set<Id> := {};
    for i := 0 to |p.participants|
      invariant seen == set k | 0 <= k < i :: p.participants[k]
      invariant forall k | 0 <= k < i :: Enrolled(p.participants[k], roster)
      invariant forall j, k | 0 <= j < k < i :: p.participants[j] != p.participants[k]
    {
      if p.participants[i] !in rosterIds {
        return false;
      }
      if p.participants[i] in seen {
        return false;
      }
      seen := seen + {p.participants[i]};
    }
    ok := true;
  }

  method ValidateBody(o: Oracles, d: Definition) returns (ok: bool)
    ensures ok <==> ValidBody(o, d)
  {
    if !o.formatted(Root(d.(ceremonyId := ""))) {
      return false;
    }
    var pair := [d.coordinator, d.releaseSigner];
    if !Unrelated(d.coordinator, d.releaseSigner) {
      assert !Unrelated(Actors(d)[0], Actors(d)[1]);
      return false;
    }
    if |d.auditors| < 2 {
      return false;
    }
    var admitted, seen := Admit(pair, Seen({d.coordinator.id, d.releaseSigner.id},
                                           {d.coordinator.keyId, d.releaseSigner.keyId},
                                           {d.coordinator.fingerprint, d.releaseSigner.fingerprint}), d.auditors);
    if !admitted {
      DistinctPrefix(Actors(d), 2 + |d.auditors|);
      assert Actors(d)[..2 + |d.auditors|] == pair + d.auditors;
      return false;
    }
    if |d.roster| == 0 || |d.roster| > MAX_PARTICIPANTS {
      return false;
    }
    admitted, seen := Admit(pair + d.auditors, seen, d.roster);
    if !admitted {
      return false;
    }
    var policiesOk := ValidatePolicy(d.phase1Policy, d.roster);
    if !policiesOk {
      return false;
    }
    policiesOk := ValidatePolicy(d.phase2Policy, d.roster);
    if !policiesOk {
      return false;
    }
    if d.mode.Production? && !ProductionRules(d) {
      return false;
    }
    ok := d.beaconPolicy.minimumLeadSeconds > 0;
  }

  // ----- Lookup -----

  /** The first of them carrying `id`. */
  function FirstWithId(people: seq<Identity>, id: Id): Option<Identity> {
    if people == [] then None
    else if people[0].id == id then Some(people[0])
    else FirstWithId(people[1..], id)
  }

  lemma {:induction false} FirstWithIdIsMember(people: seq<Identity>, id: Id)
    ensures FirstWithId(people, id).Some? <==> Enrolled(id, people)
    ensures FirstWithId(people, id).Some? ==>
              FirstWithId(people, id).value in people && FirstWithId(people, id).value.id == id
  {
    if people != [] && people[0].id != id {
      FirstWithIdIsMember(people[1..], id);
      if Enrolled(id, people) {
        var k :| 0 <= k < |people| && people[k].id == id;
        assert people[1..][k - 1].id == id;
      }
      if Enrolled(id, people[1..]) {
        var k :| 0 <= k < |people[1..]| && people[1..][k].id == id;
        assert people[k + 1].id == id;
      }
    }
  }

  function ParticipantById(d: Definition, id: Id): Option<Identity> {
    FirstWithId(d.roster, id)
  }

  function ActorById(d: Definition, id: Id): Option<Identity> {
    FirstWithId(Actors(d), id)
  }

  /** Among pairwise distinct people, looking up anyone's id finds that person. */
  lemma {:induction false} LookupFinds(people: seq<Identity>, k: nat)
    requires PairwiseDistinct(people) && k < |people|
    ensures FirstWithId(people, people[k].id) == Some(people[k])
  {
    if k > 0 {
      assert Unrelated(people[0], people[k]);
      forall i, j | 0 <= i < j < |people[1..]| ensures Unrelated(people[1..][i], people[1..][j]) {
        assert Unrelated(people[i + 1], people[j + 1]);
      }
      LookupFinds(people[1..], k - 1);
    }
  }


  datatype Role = CoordinatorRole | ReleaseSignerRole | AuditorRole | ParticipantRole | WitnessRole | MirrorRole

  datatype Assignment = Assignment(identity: Identity, role: Role, index: U16)

  /** Who the actor at position `k` is: the first two stand alone, the others are counted from one. */
  function AssignmentAt(d: Definition, k: nat): Assignment
    requires k < |Actors(d)|
  {
    if k == 0 then Assignment(d.coordinator, CoordinatorRole, 1)
    else if k == 1 then Assignment(d.releaseSigner, ReleaseSignerRole, 1)
    else if k < 2 + |d.auditors| then Assignment(d.auditors[k - 2], AuditorRole, (k - 1) % 0x1_0000)
    else Assignment(d.roster[k - 2 - |d.auditors|], ParticipantRole, (k - 1 - |d.auditors|) % 0x1_0000)
  }

  /** The first actor carrying `id`, which among pairwise distinct actors is the only one. */
  method RoleAt(d: Definition, id: Id) returns (found: Option<Assignment>)
    ensures found.None? ==> forall k | 0 <= k < |Actors(d)| :: Actors(d)[k].id != id
    ensures found.Some? ==> exists k | 0 <= k < |Actors(d)| ::
              && Actors(d)[k].id == id && found.value == AssignmentAt(d, k)
              && forall j | 0 <= j < k :: Actors(d)[j].id != id
    ensures PairwiseDistinct(Actors(d)) ==>
              forall k | 0 <= k < |Actors(d)| && Actors(d)[k].id == id :: found == Some(AssignmentAt(d, k))
  {
    if d.coordinator.id == id {
      assert Actors(d)[0].id == id;
      return Some(Assignment(d.coordinator, CoordinatorRole, 1));
    }
    if d.releaseSigner.id == id {
      assert Actors(d)[1].id == id;
      return Some(Assignment(d.releaseSigner, ReleaseSignerRole, 1));
    }
    for i := 0 to |d.auditors|
      invariant forall j | 0 <= j < 2 + i :: Actors(d)[j].id != id
    {
      assert Actors(d)[2 + i] == d.auditors[i];
      if d.auditors[i].id == id {
        assert AssignmentAt(d, 2 + i) == Assignment(d.auditors[i], AuditorRole, (i + 1) % 0x1_0000);
        return Some(Assignment(d.auditors[i], AuditorRole, (i + 1) % 0x1_0000));
      }
    }
    ghost var base := 2 + |d.auditors|;
    for i := 0 to |d.roster|
      invariant forall j | 0 <= j < base + i :: Actors(d)[j].id != id
    {
      assert Actors(d)[base + i] == d.roster[i];
      if d.roster[i].id == id {
        assert AssignmentAt(d, base + i) == Assignment(d.roster[i], ParticipantRole, (i + 1) % 0x1_0000);
        return Some(Assignment(d.roster[i], ParticipantRole, (i + 1) % 0x1_0000));
      }
    }
    found := None;
  }

  /** Two definitions with the same ceremony id are the same definition. */
  lemma CeremonyIdCommits(o: Oracles, d: Definition, e: Definition)
    requires CollisionFree(o) && ValidDefinition(o, d) && ValidDefinition(o, e)
    requires d.ceremonyId == e.ceremonyId
    ensures d == e
  {
    assert Root(d.(ceremonyId := "")) == Root(e.(ceremonyId := ""));
    assert d.(ceremonyId := "").(ceremonyId := d.ceremonyId) == d;
  }
}
