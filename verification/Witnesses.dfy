/** Enrollment: who holds which role outside and inside the ceremony, and that no two roles share a person. */
module Witnesses {
  import opened Common
  import opened Records
  import opened Definitions
  import opened Evidence
  import opened Custody

  // ----- Enrollment -----

  predicate Overlaps(d: Definition, identity: Identity) {
    exists k | 0 <= k < |Actors(d)| :: !Unrelated(Actors(d)[k], identity)
  }

  predicate External(role: Role) {
    role.WitnessRole? || role.MirrorRole?
  }

  predicate EnrollmentBinds(w: World, d: Definition, r: Enrollment) {
    && r.definition == w.digest(DefinitionDoc(d))
    && r.rosterSha256 == w.rosterSha256(d.roster)
    && (if External(r.role) then !Overlaps(d, r.identity)
        else exists k | 0 <= k < |Actors(d)| :: AssignmentAt(d, k) == Assignment(r.identity, r.role, r.roleIndex))
    && r.enrolledAt >= d.createdAt
    && r.ceremonyId == d.ceremonyId
  }

  /** One enrollment pair: bound to the definition, signed by the enrolled key, its disclosure present. */
  function OpenEnrollment(w: World, root: Root, d: Definition, refs: SignedRefs): Option<Enrollment> {
    match LoadEnrollment(w, root, refs.record)
    case Some(r) =>
      if EnrollmentBinds(w, d, r) && SignedBy(w, root, refs, r.identity) && Loads(w, root, r.disclosure)
      then Some(r) else None
    case None => None
  }

  function EnrollmentOpener(w: World, root: Root, d: Definition): SignedRefs -> Option<Enrollment> {
    refs => OpenEnrollment(w, root, d, refs)
  }

  predicate Separate(a: Enrollment, b: Enrollment) {
    && a.identity.id != b.identity.id
    && a.identity.fingerprint != b.identity.fingerprint
    && (a.role, a.roleIndex) != (b.role, b.roleIndex)
  }

  /** No two share an identity, a key or a role index. */
  predicate AllSeparate(records: seq<Enrollment>) {
    forall i, j | 0 <= i < j < |records| :: Separate(records[i], records[j])
  }

  /** The maps the loop fills: records by identity id, and the keys and role indexes taken. */
  datatype Roll = Roll(byId: Enrollments, keys: set<Id>, roleIndexes: set<(Role, U16)>) {
    predicate Clashes(r: Enrollment) {
      r.identity.id in byId || r.identity.fingerprint in keys || (r.role, r.roleIndex) in roleIndexes
    }

    function Add(r: Enrollment): Roll {
      Roll(byId[r.identity.id := r], keys + {r.identity.fingerprint}, roleIndexes + {(r.role, r.roleIndex)})
    }
  }

  function RollOf(records: seq<Enrollment>): Roll {
    if records == [] then Roll(map[], {}, {})
    else RollOf(records[..|records| - 1]).Add(records[|records| - 1])
  }

  lemma RollGrows(records: seq<Enrollment>, next: Enrollment)
    ensures RollOf(records + [next]) == RollOf(records).Add(next)
  {
    assert (records + [next])[..|records|] == records;
  }

  lemma {:induction false} RollCovers(records: seq<Enrollment>)
    ensures forall r | r in records :: RollOf(records).Clashes(r)
    ensures RollOf(records).byId.Keys == set r | r in records :: r.identity.id
    ensures RollOf(records).keys == set r | r in records :: r.identity.fingerprint
    ensures RollOf(records).roleIndexes == set r | r in records :: (r.role, r.roleIndex)
  {
    if records != [] {
      var front, last := records[..|records| - 1], records[|records| - 1];
      RollCovers(front);
      assert records == front + [last];
    }
  }

  /** Separate records are each found under their own id, and nothing else is. */
  lemma {:induction false} RollFinds(records: seq<Enrollment>)
    requires AllSeparate(records)
    ensures forall r | r in records :: r.identity.id in RollOf(records).byId && RollOf(records).byId[r.identity.id] == r
    ensures forall id | id in RollOf(records).byId ::
              RollOf(records).byId[id] in records && RollOf(records).byId[id].identity.id == id
  {
    if records != [] {
      var front, last := records[..|records| - 1], records[|records| - 1];
      assert records == front + [last];
      SeparateStep(front, last);
      SeparatePrefix(records, |front|);
      RollFinds(front);
    }
  }

  lemma ClashIsOverlap(records: seq<Enrollment>, next: Enrollment)
    ensures RollOf(records).Clashes(next) <==> exists r | r in records :: !Separate(r, next)
  {
    RollCovers(records);
  }

  predicate EveryActorEnrolled(d: Definition, enrollments: Enrollments) {
    forall k | 0 <= k < |Actors(d)| ::
      Actors(d)[k].id in enrollments && enrollments[Actors(d)[k].id].identity == Actors(d)[k]
  }

  predicate EnrollmentsHold(w: World, root: Root, d: Definition, pairs: seq<SignedRefs>) {
    var records := OpenAll(EnrollmentOpener(w, root, d), pairs, |pairs|);
    records.Some? && AllSeparate(records.value) && EveryActorEnrolled(d, RollOf(records.value).byId)
  }

  lemma SeparateStep(records: seq<Enrollment>, next: Enrollment)
    requires AllSeparate(records)
    ensures AllSeparate(records + [next]) <==> forall r | r in records :: Separate(r, next)
  {
    var longer := records + [next];
    if AllSeparate(longer) {
      forall r | r in records ensures Separate(r, next) {
        var i :| 0 <= i < |records| && records[i] == r;
        assert Separate(longer[i], longer[|records|]);
      }
    }
    if forall r | r in records :: Separate(r, next) {
      forall i, j | 0 <= i < j < |longer| ensures Separate(longer[i], longer[j]) {
        if j == |records| {
          assert records[i] in records;
        } else {
          assert Separate(records[i], records[j]);
        }
      }
    }
  }

  lemma SeparatePrefix(records: seq<Enrollment>, count: nat)
    requires count <= |records|
    ensures AllSeparate(records) ==> AllSeparate(records[..count])
  {
  }

  method VerifyEnrollments(w: World, root: Root, d: Definition, pairs: seq<SignedRefs>)
    returns (ok: bool, enrollments: Enrollments, records: seq<Enrollment>)
    ensures ok <==> EnrollmentsHold(w, root, d, pairs)
    ensures ok ==> OpenAll(EnrollmentOpener(w, root, d), pairs, |pairs|) == Some(records)
    ensures ok ==> enrollments == RollOf(records).byId
  {
    hide EveryActorEnrolled, OpenEnrollment;
    var open := EnrollmentOpener(w, root, d);
    ghost var all := OpenAll(EnrollmentOpener(w, root, d), pairs, |pairs|);
    var roll := Roll(map[], {}, {});
    records := [];
    for i := 0 to |pairs|
      invariant OpenAll(open, pairs, i) == Some(records)
      invariant AllSeparate(records) && roll == RollOf(records)
    {
      OpenPrefix(open, pairs, i + 1, |pairs|);
      if all.Some? {
        SeparatePrefix(all.value, i + 1);
      }
      var next := open(pairs[i]);
      if next.None? {
        return false, map[], records;
      }
      SeparateStep(records, next.value);
      ClashIsOverlap(records, next.value);
      if roll.Clashes(next.value) {
        return false, map[], records;
      }
      RollGrows(records, next.value);
      roll := roll.Add(next.value);
      records := records + [next.value];
    }
    enrollments := roll.byId;
    ok := EveryActorEnrolled(d, enrollments);
  }

  /** An enrolled identity comes from one of the records, bound to the definition. */
  lemma EnrolledRecord(
    w: World, root: Root, d: Definition, pairs: seq<SignedRefs>, records: seq<Enrollment>, a: Identity, role: Role)
    returns (i: nat)
    requires OpenAll(EnrollmentOpener(w, root, d), pairs, |pairs|) == Some(records) && AllSeparate(records)
    requires EnrolledAs(RollOf(records).byId, a, role)
    ensures i < |records| && records[i].identity == a && records[i].role == role
    ensures EnrollmentBinds(w, d, records[i])
  {
    hide EnrollmentBinds, SignedBy, LoadEnrollment;
    RollFinds(records);
    i :| 0 <= i < |records| && records[i] == RollOf(records).byId[a.id];
    OpenEach(EnrollmentOpener(w, root, d), pairs, records, i);
    assert EnrollmentOpener(w, root, d)(pairs[i]) == OpenEnrollment(w, root, d, pairs[i]);
  }

  /** What an enrollment that opens says: signed by the enrolled key itself, for this definition and this roster. */
  lemma EnrollmentStates(w: World, root: Root, d: Definition, refs: SignedRefs, r: Enrollment)
    requires OpenEnrollment(w, root, d, refs) == Some(r)
    ensures SignedDocument(w, root, refs, EnrollmentDoc(r), r.identity)
    ensures r.ceremonyId == d.ceremonyId && r.definition == w.digest(DefinitionDoc(d))
    ensures r.rosterSha256 == w.rosterSha256(d.roster)
    ensures r.disclosure.name in root && w.digest(root[r.disclosure.name]) == r.disclosure.digest
    ensures d.createdAt <= r.enrolledAt
    ensures r.role == CoordinatorRole ==> r.identity == d.coordinator
    ensures r.role == ReleaseSignerRole ==> r.identity == d.releaseSigner
    ensures r.role == AuditorRole ==> r.identity in d.auditors
    ensures r.role == ParticipantRole ==> r.identity in d.roster
    ensures r.role == WitnessRole || r.role == MirrorRole ==>
              forall k | 0 <= k < |Actors(d)| :: Actors(d)[k].id != r.identity.id && Actors(d)[k].keyId != r.identity.keyId
  {
    SignedDocumentLoads(w, root, refs, EnrollmentDoc(r), r.identity);
    if External(r.role) {
      assert forall k | 0 <= k < |Actors(d)| :: Unrelated(Actors(d)[k], r.identity);
    }
  }

  /**
   Whoever a verified bundle enrolls for an outside role is no ceremony actor, in id, key id or public key,
   and holds no other role: a witness is never also a mirror operator.
   */
  lemma OutsidersAreIndependent(
    w: World, root: Root, d: Definition, pairs: seq<SignedRefs>, records: seq<Enrollment>, a: Identity, b: Identity)
    requires OpenAll(EnrollmentOpener(w, root, d), pairs, |pairs|) == Some(records) && AllSeparate(records)
    requires EnrolledAs(RollOf(records).byId, a, WitnessRole) && EnrolledAs(RollOf(records).byId, b, MirrorRole)
    ensures !Overlaps(d, a) && !Overlaps(d, b)
    ensures a.id != b.id && a.fingerprint != b.fingerprint
  {
    hide RollOf, Overlaps, EnrollmentOpener, OpenAll;
    var i := EnrolledRecord(w, root, d, pairs, records, a, WitnessRole);
    var j := EnrolledRecord(w, root, d, pairs, records, b, MirrorRole);
    assert i < j ==> Separate(records[i], records[j]);
    assert j < i ==> Separate(records[j], records[i]);
  }
}
