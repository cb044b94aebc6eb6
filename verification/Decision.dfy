/** The production decision: its gates, the coherence of its evidence, and the exact threshold of its signatures. */
module Decisions {
  import opened Common
  import opened Records
  import opened Definitions
  import opened Order

  datatype Located = Located(uri: string, artifact: ArtifactRef)

  datatype AuditEvidence = AuditEvidence(auditorId: Id, auditorKeyId: Id, record: Located, signature: Located)

  datatype ExternalAudit = ExternalAudit(auditor: Identity, report: Located, signoff: Located)

  datatype Gate =
    | SignedRelease | OperationalEvidence | IndependentAudits | SecurityAudit | RehearsalRun | DeploymentPlan
    | Checklist | ParticipantIndependence | ParticipantHost | ParticipantEntropy | ParticipantErasure
    | PublicWitnessing | ImmutableMirrors | LiveCeremony

  datatype Status = Pass | Fail | Pending

  datatype GateResult = GateResult(gate: Gate, status: Status, evidence: seq<Located>, rationale: string)

  datatype Verdict = Go | NoGo

  /** `release` holds the six singly named references of the release, `operational` a record and its signature. */
  datatype Decision = Decision(
    decisionId: Id, ceremonyId: Id, sourceCommit: string, release: seq<Located>, releaseArtifacts: seq<Located>,
    tagObject: Located, operational: seq<Located>, audits: seq<AuditEvidence>, externals: seq<ExternalAudit>,
    rehearsal: Located, deploymentPlan: Located, checklist: Located, gates: seq<GateResult>, verdict: Verdict)

  /** The parts that are not part of this model: single-field formats, the decision hash, and signature checks. */
  datatype Checks = Checks(
    formatted: Decision -> bool, hash: Decision -> Id, trimmed: string -> bool, bindsCircuit: (Definition, Decision) -> bool,
    authentic: (string, Identity) -> bool)

  function RequiredGates(): (gates: seq<Gate>)
    ensures |gates| == 14
  {
    [SignedRelease, OperationalEvidence, IndependentAudits, SecurityAudit, RehearsalRun, DeploymentPlan, Checklist,
     ParticipantIndependence, ParticipantHost, ParticipantEntropy, ParticipantErasure, PublicWitnessing,
     ImmutableMirrors, LiveCeremony]
  }

  // ------------------------------------------------------------------------------------------------ gates and verdict

  ghost predicate OrderedByUri(refs: seq<Located>) {
    forall i, j | 0 <= i < j < |refs| :: Less(refs[i].uri, refs[j].uri)
  }

  ghost predicate ValidGate(c: Checks, g: GateResult) {
    && (g.status.Pass? ==> g.evidence != [])
    && (!g.status.Pass? ==> g.rationale != "" && c.trimmed(g.rationale))
    && |g.evidence| <= 32
    && OrderedByUri(g.evidence)
    && (g.rationale != "" ==> c.trimmed(g.rationale) && |g.rationale| <= 2048)
  }

  method ValidateGate(c: Checks, g: GateResult) returns (ok: bool)
    ensures ok <==> ValidGate(c, g)
  {
    if g.status.Pass? {
      if |g.evidence| == 0 {
        return false;
      }
    } else if g.rationale == "" || !c.trimmed(g.rationale) {
      return false;
    }
    if |g.evidence| > 32 {
      return false;
    }
    for i := 0 to |g.evidence|
      invariant forall k | 0 < k < i :: Less(g.evidence[k - 1].uri, g.evidence[k].uri)
    {
      if i > 0 && !Less(g.evidence[i - 1].uri, g.evidence[i].uri) {
        return false;
      }
    }
    UriOrder(g.evidence);
    ok := g.rationale == "" || (c.trimmed(g.rationale) && |g.rationale| <= 2048);
  }

  lemma UriOrder(refs: seq<Located>)
    requires forall k | 0 < k < |refs| :: Less(refs[k - 1].uri, refs[k].uri)
    ensures OrderedByUri(refs)
  {
    var uris := seq(|refs|, (k: nat) requires k < |refs| => refs[k].uri);
    forall i, j | 0 <= i < j < |refs|
      ensures Less(refs[i].uri, refs[j].uri)
    {
      AdjacentOrder(uris, i, j);
    }
  }

  ghost predicate ValidGates(c: Checks, gates: seq<GateResult>) {
    && |gates| == |RequiredGates()|
    && (forall i | 0 <= i < |gates| :: gates[i].gate == RequiredGates()[i] && ValidGate(c, gates[i]))
  }

  ghost predicate AllPass(gates: seq<GateResult>) {
    forall i | 0 <= i < |gates| :: gates[i].status.Pass?
  }

  /** All fourteen gates in their order; a GO has every one of them passed and a NO-GO at least one that is not. */
  method ValidateGates(c: Checks, gates: seq<GateResult>, verdict: Verdict) returns (ok: bool)
    ensures ok <==> ValidGates(c, gates) && (verdict.Go? <==> AllPass(gates))
  {
    hide ValidGate, RequiredGates;
    if |gates| != |RequiredGates()| {
      return false;
    }
    var allPass := true;
    for i := 0 to |RequiredGates()|
      invariant forall k | 0 <= k < i :: gates[k].gate == RequiredGates()[k] && ValidGate(c, gates[k])
      invariant allPass <==> forall k | 0 <= k < i :: gates[k].status.Pass?
    {
      if gates[i].gate != RequiredGates()[i] {
        return false;
      }
      var valid := ValidateGate(c, gates[i]);
      if !valid {
        return false;
      }
      allPass := allPass && gates[i].status.Pass?;
    }
    match verdict
    case Go => ok := allPass;
    case NoGo => ok := !allPass;
  }

  ghost predicate Answered(gates: seq<GateResult>, gate: Gate) {
    exists i | 0 <= i < |gates| :: gates[i].gate == gate
  }

  /** The number of a gate in the report. */
  ghost function Place(gate: Gate): (i: nat)
    ensures i < 14
  {
    match gate
    case SignedRelease => 0 case OperationalEvidence => 1 case IndependentAudits => 2 case SecurityAudit => 3
    case RehearsalRun => 4 case DeploymentPlan => 5 case Checklist => 6 case ParticipantIndependence => 7
    case ParticipantHost => 8 case ParticipantEntropy => 9 case ParticipantErasure => 10
    case PublicWitnessing => 11 case ImmutableMirrors => 12 case LiveCeremony => 13
  }

  lemma PlacesAreRequired(i: nat)
    requires i < 14
    ensures Place(RequiredGates()[i]) == i
  {
  }

  lemma RequiredIsPlaced(gate: Gate)
    ensures RequiredGates()[Place(gate)] == gate
  {
  }

  /** Every gate there is has to be answered, each just once and in its own place. */
  lemma GatesAreAll(c: Checks, gates: seq<GateResult>)
    requires ValidGates(c, gates)
    ensures |gates| == 14
    ensures forall gate: Gate :: Answered(gates, gate)
    ensures forall i, j | 0 <= i < j < 14 :: gates[i].gate != gates[j].gate
    ensures forall i | 0 <= i < 14 :: Place(gates[i].gate) == i
  {
    hide ValidGate, RequiredGates, Place;
    forall i | 0 <= i < 14
      ensures Place(gates[i].gate) == i
    {
      PlacesAreRequired(i);
    }
    forall gate: Gate
      ensures Answered(gates, gate)
    {
      RequiredIsPlaced(gate);
      assert gates[Place(gate)].gate == gate;
    }
  }

  /** A passed gate shows 1 to 32 pieces of evidence, in strict URI order; any other gate gives its reason. */
  lemma GateStates(c: Checks, g: GateResult)
    ensures ValidGate(c, g) <==>
            && |g.evidence| <= 32 && (forall i, j | 0 <= i < j < |g.evidence| :: Less(g.evidence[i].uri, g.evidence[j].uri))
            && (match g.status
                case Pass => |g.evidence| >= 1 && (g.rationale == "" || (c.trimmed(g.rationale) && |g.rationale| <= 2048))
                case _ => 1 <= |g.rationale| <= 2048 && c.trimmed(g.rationale))
  {
  }

  // -------------------------------------------------------------------------------------------- coherence of evidence

  /** No two references share a name or a URI without being the same. */
  ghost predicate Coherent(refs: seq<Located>) {
    forall i, j | 0 <= i < j < |refs| :: !Conflict(refs[i], refs[j])
  }

  predicate Conflict(a: Located, b: Located) {
    (a.artifact.name == b.artifact.name || a.uri == b.uri) && a != b
  }

  /** The map holds exactly the references so far, each under its own name or URI. */
  ghost predicate Indexes(index: map<string, Located>, refs: seq<Located>, field: Located -> string) {
    && (forall k | 0 <= k < |refs| :: field(refs[k]) in index && index[field(refs[k])] == refs[k])
    && (forall key <- index :: index[key] in refs && field(index[key]) == key)
  }

  lemma IndexStep(index: map<string, Located>, refs: seq<Located>, field: Located -> string, ref: Located)
    requires Indexes(index, refs, field)
    ensures field(ref) in index && index[field(ref)] != ref ==>
              exists k | 0 <= k < |refs| :: field(refs[k]) == field(ref) && refs[k] != ref
    ensures !(field(ref) in index && index[field(ref)] != ref) ==>
              && Indexes(index[field(ref) := ref], refs + [ref], field)
              && forall k | 0 <= k < |refs| :: field(refs[k]) == field(ref) ==> refs[k] == ref
  {
    if field(ref) in index && index[field(ref)] != ref {
      var k :| 0 <= k < |refs| && refs[k] == index[field(ref)];
      assert field(refs[k]) == field(ref) && refs[k] != ref;
    }
  }

  function NameOf(ref: Located): string {
    ref.artifact.name
  }

  function UriOf(ref: Located): string {
    ref.uri
  }

  method ValidateCoherence(refs: seq<Located>) returns (ok: bool)
    ensures ok <==> Coherent(refs)
  {
    hide Indexes;
    var byName: map<string, Located> := map[];
    var byUri: map<string, Located> := map[];
    EmptyIndex(NameOf);
    EmptyIndex(UriOf);
    for i := 0 to |refs|
      invariant Indexes(byName, refs[..i], NameOf) && Indexes(byUri, refs[..i], UriOf)
      invariant Coherent(refs[..i])
    {
      var ref := refs[i];
      IndexStep(byName, refs[..i], NameOf, ref);
      IndexStep(byUri, refs[..i], UriOf, ref);
      if ref.artifact.name in byName && byName[ref.artifact.name] != ref {
        var k :| 0 <= k < i && refs[..i][k].artifact.name == ref.artifact.name && refs[..i][k] != ref;
        assert Conflict(refs[k], refs[i]);
        return false;
      }
      if ref.uri in byUri && byUri[ref.uri] != ref {
        var k :| 0 <= k < i && refs[..i][k].uri == ref.uri && refs[..i][k] != ref;
        assert Conflict(refs[k], refs[i]);
        return false;
      }
      byName := byName[ref.artifact.name := ref];
      byUri := byUri[ref.uri := ref];
      CoherentStep(refs[..i], ref);
      assert refs[..i + 1] == refs[..i] + [ref];
    }
    assert refs[..|refs|] == refs;
    ok := true;
  }

  lemma EmptyIndex(field: Located -> string)
    ensures Indexes(map[], [], field)
  {
  }

  lemma CoherentStep(refs: seq<Located>, ref: Located)
    requires Coherent(refs)
    requires forall k | 0 <= k < |refs| :: NameOf(refs[k]) == NameOf(ref) ==> refs[k] == ref
    requires forall k | 0 <= k < |refs| :: UriOf(refs[k]) == UriOf(ref) ==> refs[k] == ref
    ensures Coherent(refs + [ref])
  {
    var all := refs + [ref];
    forall i, j | 0 <= i < j < |all|
      ensures !Conflict(all[i], all[j])
    {
      if j < |refs| {
        assert !Conflict(refs[i], refs[j]);
      }
    }
  }

  ghost predicate HasUri(refs: seq<Located>, uri: string) {
    exists k | 0 <= k < |refs| :: refs[k].uri == uri
  }

  ghost predicate OnePerUri(refs: seq<Located>, unique: seq<Located>) {
    && OrderedByUri(unique)
    && (forall k | 0 <= k < |unique| :: unique[k] in refs)
    && (forall k | 0 <= k < |refs| :: HasUri(unique, refs[k].uri))
  }

  /** The members of a set in string order. */
  method Listed(names: set<string>) returns (sorted: seq<string>)
    ensures StrictlyOrdered(sorted)
    ensures forall name :: name in sorted <==> name in names
  {
    var list: seq<string> := [];
    var rest := names;
    while rest != {}
      invariant rest <= names
      invariant forall name :: name in list <==> name in names && name !in rest
      invariant forall i, j | 0 <= i < j < |list| :: list[i] != list[j]
      decreases |rest|
    {
      var name :| name in rest;
      rest := rest - {name};
      list := list + [name];
    }
    sorted := Sorted(list);
    SortedStrictly(list);
  }

  /** One reference per URI, in URI order. */
  method UniqueLocated(refs: seq<Located>) returns (unique: seq<Located>)
    ensures OnePerUri(refs, unique)
  {
    var byUri: map<string, Located> := map[];
    for i := 0 to |refs|
      invariant forall uri <- byUri :: byUri[uri] in refs && byUri[uri].uri == uri
      invariant forall k | 0 <= k < i :: refs[k].uri in byUri
    {
      byUri := byUri[refs[i].uri := refs[i]];
    }
    var sorted := Listed(byUri.Keys);
    unique := seq(|sorted|, (i: nat) requires i < |sorted| => byUri[sorted[i]]);
    forall i | 0 <= i < |refs|
      ensures HasUri(unique, refs[i].uri)
    {
      assert refs[i].uri in sorted;
      var k :| 0 <= k < |sorted| && sorted[k] == refs[i].uri;
      assert unique[k].uri == refs[i].uri;
    }
  }

  /** With coherent evidence nothing is lost: exactly the references, and no two of them under one name. */
  lemma UniqueKeepsCoherent(refs: seq<Located>, unique: seq<Located>)
    requires Coherent(refs) && OnePerUri(refs, unique)
    ensures forall ref :: ref in unique <==> ref in refs
    ensures forall i, j | 0 <= i < j < |unique| :: unique[i].artifact.name != unique[j].artifact.name
  {
    hide Less, Coherent, Conflict;
    forall ref | ref in refs
      ensures ref in unique
    {
      var i :| 0 <= i < |refs| && refs[i] == ref;
      assert HasUri(unique, refs[i].uri);
      var k :| 0 <= k < |unique| && unique[k].uri == ref.uri;
      NoConflict(refs, ref, unique[k]);
    }
    forall i, j | 0 <= i < j < |unique|
      ensures unique[i].artifact.name != unique[j].artifact.name
    {
      NoConflict(refs, unique[i], unique[j]);
      LessIrreflexive(unique[i].uri);
    }
  }

  lemma NoConflict(refs: seq<Located>, a: Located, b: Located)
    requires Coherent(refs) && a in refs && b in refs
    ensures a.artifact.name == b.artifact.name || a.uri == b.uri ==> a == b
  {
    var i :| 0 <= i < |refs| && refs[i] == a;
    var j :| 0 <= j < |refs| && refs[j] == b;
    assert i < j ==> !Conflict(refs[i], refs[j]);
    assert j < i ==> !Conflict(refs[j], refs[i]);
  }

  function AuditRefs(audits: seq<AuditEvidence>): seq<Located> {
    if audits == [] then [] else AuditRefs(audits[..|audits| - 1]) + [audits[|audits| - 1].record, audits[|audits| - 1].signature]
  }

  function ExternalRefs(externals: seq<ExternalAudit>): seq<Located> {
    if externals == [] then []
    else ExternalRefs(externals[..|externals| - 1]) + [externals[|externals| - 1].report, externals[|externals| - 1].signoff]
  }

  function GateRefs(gates: seq<GateResult>): seq<Located> {
    if gates == [] then [] else GateRefs(gates[..|gates| - 1]) + gates[|gates| - 1].evidence
  }

  /** Every reference of the decision. */
  function AllLocated(d: Decision): seq<Located> {
    d.release + [d.tagObject] + d.operational + AuditRefs(d.audits) + [d.rehearsal, d.deploymentPlan, d.checklist]
    + d.releaseArtifacts + ExternalRefs(d.externals) + GateRefs(d.gates)
  }

  /** A file that the decision pins, wherever it does so. */
  ghost predicate Pinned(d: Decision, ref: Located) {
    || ref in d.release || ref in d.releaseArtifacts || ref == d.tagObject || ref in d.operational
    || ref == d.rehearsal || ref == d.deploymentPlan || ref == d.checklist
    || (exists i | 0 <= i < |d.audits| :: ref == d.audits[i].record || ref == d.audits[i].signature)
    || (exists i | 0 <= i < |d.externals| :: ref == d.externals[i].report || ref == d.externals[i].signoff)
    || (exists i | 0 <= i < |d.gates| :: ref in d.gates[i].evidence)
  }

  lemma {:induction false} AuditRefsHold(audits: seq<AuditEvidence>, ref: Located)
    ensures ref in AuditRefs(audits) <==> exists i | 0 <= i < |audits| :: ref == audits[i].record || ref == audits[i].signature
  {
    if audits != [] {
      AuditRefsHold(audits[..|audits| - 1], ref);
    }
  }

  lemma {:induction false} ExternalRefsHold(externals: seq<ExternalAudit>, ref: Located)
    ensures ref in ExternalRefs(externals) <==>
            exists i | 0 <= i < |externals| :: ref == externals[i].report || ref == externals[i].signoff
  {
    if externals != [] {
      ExternalRefsHold(externals[..|externals| - 1], ref);
    }
  }

  lemma {:induction false} GateRefsHold(gates: seq<GateResult>, ref: Located)
    ensures ref in GateRefs(gates) <==> exists i | 0 <= i < |gates| :: ref in gates[i].evidence
  {
    if gates != [] {
      GateRefsHold(gates[..|gates| - 1], ref);
    }
  }

  /** The list of all references leaves none out and adds none. */
  lemma AllLocatedHold(d: Decision, ref: Located)
    ensures ref in AllLocated(d) <==> Pinned(d, ref)
  {
    hide AuditRefs, ExternalRefs, GateRefs;
    AuditRefsHold(d.audits, ref);
    ExternalRefsHold(d.externals, ref);
    GateRefsHold(d.gates, ref);
  }

  // ------------------------------------------------------------------------------------------------------- the record

  /** Exactly two audits, by two auditors in id order, under two keys. */
  ghost predicate TwoAudits(audits: seq<AuditEvidence>) {
    && |audits| == 2
    && Less(audits[0].auditorId, audits[1].auditorId)
    && audits[0].auditorKeyId != audits[1].auditorKeyId
  }

  ghost predicate TwoExternals(externals: seq<ExternalAudit>) {
    && |externals| == 2
    && Less(externals[0].auditor.id, externals[1].auditor.id)
    && externals[0].auditor.fingerprint != externals[1].auditor.fingerprint
  }

  ghost predicate ValidDecision(c: Checks, d: Decision) {
    && c.formatted(d)
    && d.decisionId == c.hash(d.(decisionId := ""))
    && TwoAudits(d.audits)
    && TwoExternals(d.externals)
    && ValidGates(c, d.gates)
    && (d.verdict.Go? <==> AllPass(d.gates))
    && Coherent(AllLocated(d))
  }

  method ValidateDecision(c: Checks, d: Decision) returns (ok: bool)
    ensures ok <==> ValidDecision(c, d)
  {
    hide ValidGates, AllPass, Coherent, AllLocated;
    if !c.formatted(d) || d.decisionId != c.hash(d.(decisionId := "")) {
      return false;
    }
    if |d.audits| != 2 {
      return false;
    }
    for i := 0 to |d.audits|
      invariant i == 2 ==> Less(d.audits[0].auditorId, d.audits[1].auditorId)
    {
      if i > 0 && !Less(d.audits[i - 1].auditorId, d.audits[i].auditorId) {
        return false;
      }
    }
    if d.audits[0].auditorKeyId == d.audits[1].auditorKeyId {
      return false;
    }
    if |d.externals| != 2 {
      return false;
    }
    for i := 0 to |d.externals|
      invariant i == 2 ==> Less(d.externals[0].auditor.id, d.externals[1].auditor.id)
    {
      if i > 0 && !Less(d.externals[i - 1].auditor.id, d.externals[i].auditor.id) {
        return false;
      }
    }
    if d.externals[0].auditor.fingerprint == d.externals[1].auditor.fingerprint {
      return false;
    }
    var gates := ValidateGates(c, d.gates, d.verdict);
    if !gates {
      return false;
    }
    ok := ValidateCoherence(AllLocated(d));
  }

  // ------------------------------------------------------------------------------------------- binding and signatures

  predicate EnrolledWithKey(def: Definition, id: Id, keyId: Id) {
    var found := FirstWithId(def.auditors, id);
    found.Some? && found.value.keyId == keyId
  }

  predicate Outside(def: Definition, fingerprint: Id) {
    && fingerprint != def.coordinator.fingerprint
    && fingerprint != def.releaseSigner.fingerprint
    && forall k | 0 <= k < |def.auditors| :: fingerprint != def.auditors[k].fingerprint
  }

  /** The decision is about this ceremony: its auditors are enrolled with their keys, the external ones are outsiders. */
  ghost predicate Binds(c: Checks, def: Definition, d: Decision) {
    && d.ceremonyId == def.ceremonyId
    && d.sourceCommit == def.software.sourceCommit
    && c.bindsCircuit(def, d)
    && (forall i | 0 <= i < |d.audits| :: EnrolledWithKey(def, d.audits[i].auditorId, d.audits[i].auditorKeyId))
    && (forall i | 0 <= i < |d.externals| :: Outside(def, d.externals[i].auditor.fingerprint))
  }

  method ValidateBinding(c: Checks, def: Definition, d: Decision) returns (ok: bool)
    ensures ok <==> Binds(c, def, d)
  {
    if d.ceremonyId != def.ceremonyId || d.sourceCommit != def.software.sourceCommit || !c.bindsCircuit(def, d) {
      return false;
    }
    for i := 0 to |d.audits|
      invariant forall k | 0 <= k < i :: EnrolledWithKey(def, d.audits[k].auditorId, d.audits[k].auditorKeyId)
    {
      if !EnrolledWithKey(def, d.audits[i].auditorId, d.audits[i].auditorKeyId) {
        return false;
      }
    }
    for i := 0 to |d.externals|
      invariant forall k | 0 <= k < i :: Outside(def, d.externals[k].auditor.fingerprint)
    {
      var fingerprint := d.externals[i].auditor.fingerprint;
      if fingerprint == def.coordinator.fingerprint || fingerprint == def.releaseSigner.fingerprint {
        return false;
      }
      for j := 0 to |def.auditors|
        invariant forall k | 0 <= k < j :: fingerprint != def.auditors[k].fingerprint
      {
        if fingerprint == def.auditors[j].fingerprint {
          return false;
        }
      }
    }
    ok := true;
  }

  datatype SignerRole = CoordinatorSigner | AuditorSigner | ReleaseSigner

  /** One submitted file: unreadable, or a signature that names its signer. */
  datatype Submission = Unreadable | Signature(role: SignerRole, signerId: Id, detached: string)

  function RoleText(role: SignerRole): string {
    match role
    case CoordinatorSigner => "coordinator"
    case AuditorSigner => "auditor"
    case ReleaseSigner => "release_signer"
  }

  function Key(role: SignerRole, id: Id): string {
    RoleText(role) + "\0" + id
  }

  /** The key string determines both the role and the id, whatever characters the id has. */
  lemma KeyIsInjective(r: SignerRole, i: Id, s: SignerRole, j: Id)
    requires Key(r, i) == Key(s, j)
    ensures r == s && i == j
  {
    assert Key(r, i)[0] == RoleText(r)[0] && Key(s, j)[0] == RoleText(s)[0];
    assert i == Key(r, i)[|RoleText(r)| + 1..];
    assert j == Key(s, j)[|RoleText(s)| + 1..];
  }

  /** Who a signature must come from, if that role and id may sign this decision at all. */
  function SignerIdentity(def: Definition, d: Decision, role: SignerRole, id: Id): Option<Identity> {
    match role
    case CoordinatorSigner => if id == def.coordinator.id then Some(def.coordinator) else None
    case ReleaseSigner => if id == def.releaseSigner.id then Some(def.releaseSigner) else None
    case AuditorSigner => AuditorIdentity(def, d.audits, id)
  }

  /** The first audit under that id decides. */
  function AuditorIdentity(def: Definition, audits: seq<AuditEvidence>, id: Id): Option<Identity> {
    if audits == [] then None
    else if audits[0].auditorId == id then
      if EnrolledWithKey(def, id, audits[0].auditorKeyId) then FirstWithId(def.auditors, id) else None
    else AuditorIdentity(def, audits[1..], id)
  }

  ghost predicate SignedBy(c: Checks, def: Definition, d: Decision, s: Submission) {
    && s.Signature?
    && SignerIdentity(def, d, s.role, s.signerId).Some?
    && c.authentic(s.detached, SignerIdentity(def, d, s.role, s.signerId).value)
  }

  ghost function KeysOf(submissions: seq<Submission>): (keys: seq<string>)
    requires forall i | 0 <= i < |submissions| :: submissions[i].Signature?
    ensures |keys| == |submissions|
  {
    seq(|submissions|, (i: nat) requires i < |submissions| => Key(submissions[i].role, submissions[i].signerId))
  }

  function Required(def: Definition, d: Decision): (keys: seq<string>)
    requires |d.audits| == 2
    ensures |keys| == 4
  {
    [Key(CoordinatorSigner, def.coordinator.id), Key(AuditorSigner, d.audits[0].auditorId),
     Key(AuditorSigner, d.audits[1].auditorId), Key(ReleaseSigner, def.releaseSigner.id)]
  }

  /** The auditor order is what makes the four required signers four. */
  lemma RequiredAreDistinct(def: Definition, d: Decision)
    requires TwoAudits(d.audits)
    ensures Distinct(Required(def, d))
  {
    hide Key;
    var required := Required(def, d);
    LessIrreflexive(d.audits[0].auditorId);
    DifferentKeys(CoordinatorSigner, def.coordinator.id, AuditorSigner, d.audits[0].auditorId);
    DifferentKeys(CoordinatorSigner, def.coordinator.id, AuditorSigner, d.audits[1].auditorId);
    DifferentKeys(CoordinatorSigner, def.coordinator.id, ReleaseSigner, def.releaseSigner.id);
    DifferentKeys(AuditorSigner, d.audits[0].auditorId, AuditorSigner, d.audits[1].auditorId);
    DifferentKeys(AuditorSigner, d.audits[0].auditorId, ReleaseSigner, def.releaseSigner.id);
    DifferentKeys(AuditorSigner, d.audits[1].auditorId, ReleaseSigner, def.releaseSigner.id);
  }

  lemma DifferentKeys(r: SignerRole, i: Id, s: SignerRole, j: Id)
    requires r != s || i != j
    ensures Key(r, i) != Key(s, j)
  {
    if Key(r, i) == Key(s, j) {
      KeyIsInjective(r, i, s, j);
    }
  }

  lemma SubsetOfSameSize(a: set<string>, b: set<string>)
    requires a <= b
    ensures |a| == |b| <==> a == b
  {
    assert b == a + (b - a);
  }

  /**
   There are signatures, each one authentic and from someone who may sign, no two of the same signer; and for a GO
   the signers are exactly the required ones.
   */
  ghost predicate SignaturesHold(c: Checks, def: Definition, d: Decision, submissions: seq<Submission>)
    requires |d.audits| == 2
  {
    && |submissions| > 0
    && (forall i | 0 <= i < |submissions| :: SignedBy(c, def, d, submissions[i]))
    && Distinct(KeysOf(submissions))
    && (d.verdict.Go? ==> Elements(KeysOf(submissions)) == Elements(Required(def, d)))
  }

  method VerifySignatures(c: Checks, def: Definition, d: Decision, submissions: seq<Submission>)
    returns (verified: Option<seq<string>>)
    requires TwoAudits(d.audits)
    ensures verified.Some? <==> SignaturesHold(c, def, d, submissions)
    ensures verified.Some? ==> verified.value == Sorted(KeysOf(submissions))
  {
    hide SignerIdentity, Key, Sorted;
    var seen: set<string> := {};
    var keys: seq<string> := [];
    for i := 0 to |submissions|
      invariant forall k | 0 <= k < i :: SignedBy(c, def, d, submissions[k])
      invariant keys == KeysOf(submissions[..i]) && Distinct(keys) && seen == Elements(keys)
    {
      if submissions[i].Unreadable? {
        assert !SignedBy(c, def, d, submissions[i]);
        return None;
      }
      var signature := submissions[i];
      var identity := SignerIdentity(def, d, signature.role, signature.signerId);
      if identity.None? {
        assert !SignedBy(c, def, d, submissions[i]);
        return None;
      }
      var key := Key(signature.role, signature.signerId);
      if key in seen {
        RepeatedKey(submissions, i, key);
        return None;
      }
      seen := seen + {key};
      if !c.authentic(signature.detached, identity.value) {
        assert !SignedBy(c, def, d, submissions[i]);
        return None;
      }
      keys := keys + [key];
      assert submissions[..i + 1] == submissions[..i] + [signature];
    }
    assert submissions[..|submissions|] == submissions;
    if |keys| == 0 {
      return None;
    }
    if d.verdict.Go? {
      var required := Required(def, d);
      RequiredAreDistinct(def, d);
      DistinctCount(required);
      for i := 0 to |required|
        invariant forall k | 0 <= k < i :: required[k] in seen
      {
        if required[i] !in seen {
          assert required[i] in Elements(required);
          return None;
        }
      }
      SubsetOfSameSize(Elements(required), seen);
      if |seen| != |required| {
        return None;
      }
    }
    verified := Some(Sorted(keys));
  }

  lemma RepeatedKey(submissions: seq<Submission>, i: nat, key: string)
    requires i < |submissions|
    requires forall k | 0 <= k <= i :: submissions[k].Signature?
    requires key == Key(submissions[i].role, submissions[i].signerId) && key in KeysOf(submissions[..i])
    ensures (forall k | 0 <= k < |submissions| :: submissions[k].Signature?) ==> !Distinct(KeysOf(submissions))
  {
    hide Key;
    var before := KeysOf(submissions[..i]);
    var k :| 0 <= k < i && before[k] == key;
    if forall k | 0 <= k < |submissions| :: submissions[k].Signature? {
      assert KeysOf(submissions)[k] == KeysOf(submissions)[i];
    }
  }

  // ------------------------------------------------------------------------------------------------------ the decision

  /** Everything a verified decision says, apart from what the evidence files themselves contain. */
  ghost predicate Verified(c: Checks, def: Definition, d: Decision, submissions: seq<Submission>) {
    ValidDecision(c, d) && Binds(c, def, d) && SignaturesHold(c, def, d, submissions)
  }

  /** The position of a signer among all those the definition names, which the role and the id determine. */
  lemma SignerPosition(def: Definition, d: Decision, role: SignerRole, id: Id) returns (k: nat)
    requires SignerIdentity(def, d, role, id).Some?
    ensures k < |Actors(def)| && Actors(def)[k] == SignerIdentity(def, d, role, id).value && Actors(def)[k].id == id
    ensures role == (if k == 0 then CoordinatorSigner else if k == 1 then ReleaseSigner else AuditorSigner)
  {
    match role
    case CoordinatorSigner => k := 0;
    case ReleaseSigner => k := 1;
    case AuditorSigner =>
      AuditorIsEnrolled(def, d.audits, id);
      FirstWithIdIsMember(def.auditors, id);
      var found := FirstWithId(def.auditors, id).value;
      var j :| 0 <= j < |def.auditors| && def.auditors[j] == found;
      k := 2 + j;
  }

  lemma {:induction false} AuditorIsEnrolled(def: Definition, audits: seq<AuditEvidence>, id: Id)
    requires AuditorIdentity(def, audits, id).Some?
    ensures AuditorIdentity(def, audits, id) == FirstWithId(def.auditors, id)
    ensures exists i | 0 <= i < |audits| :: audits[i].auditorId == id
  {
    if audits[0].auditorId != id {
      AuditorIsEnrolled(def, audits[1..], id);
      var i :| 0 <= i < |audits[1..]| && audits[1..][i].auditorId == id;
      assert audits[i + 1].auditorId == id;
    }
  }

  function IdentityOf(def: Definition, d: Decision, s: Submission): Identity
    requires s.Signature? && SignerIdentity(def, d, s.role, s.signerId).Some?
  {
    SignerIdentity(def, d, s.role, s.signerId).value
  }

  /** Two signatures of one verified decision come from people who share no id, no key and no fingerprint. */
  lemma SignersAreUnrelated(c: Checks, o: Oracles, def: Definition, d: Decision, submissions: seq<Submission>, i: nat, j: nat)
    requires ValidDefinition(o, def) && Verified(c, def, d, submissions)
    requires i < j < |submissions|
    requires SignedBy(c, def, d, submissions[i]) && SignedBy(c, def, d, submissions[j])
    ensures Unrelated(IdentityOf(def, d, submissions[i]), IdentityOf(def, d, submissions[j]))
  {
    hide SignerIdentity, Key;
    var a, b := submissions[i], submissions[j];
    var p := SignerPosition(def, d, a.role, a.signerId);
    var q := SignerPosition(def, d, b.role, b.signerId);
    assert KeysOf(submissions)[i] != KeysOf(submissions)[j];
    assert p != q;
    var first, second := if p < q then p else q, if p < q then q else p;
    assert Unrelated(Actors(def)[first], Actors(def)[second]);
  }

  ghost predicate HasSigned(submissions: seq<Submission>, role: SignerRole, id: Id) {
    exists i | 0 <= i < |submissions| ::
      submissions[i].Signature? && submissions[i].role == role && submissions[i].signerId == id
  }

  /** The coordinator, the two auditors whose audits the decision binds, and the release signer. */
  predicate MustSign(def: Definition, d: Decision, role: SignerRole, id: Id)
    requires |d.audits| == 2
  {
    match role
    case CoordinatorSigner => id == def.coordinator.id
    case ReleaseSigner => id == def.releaseSigner.id
    case AuditorSigner => id == d.audits[0].auditorId || id == d.audits[1].auditorId
  }

  /**
   A verified GO has every gate passed, and exactly four signatures, those of the four who must sign, no two of
   whom share an id, a key or a fingerprint.
   */
  lemma GoIsUnanimous(c: Checks, o: Oracles, def: Definition, d: Decision, submissions: seq<Submission>)
    requires ValidDefinition(o, def) && Verified(c, def, d, submissions) && d.verdict.Go?
    ensures |d.gates| == 14 && AllPass(d.gates)
    ensures |submissions| == 4
    ensures forall role: SignerRole, id: Id ::
              HasSigned(submissions, role, id)
              <==> MustSign(def, d, role, id)
    ensures forall i, j | 0 <= i < j < |submissions| ::
              && SignedBy(c, def, d, submissions[i]) && SignedBy(c, def, d, submissions[j])
              && Unrelated(IdentityOf(def, d, submissions[i]), IdentityOf(def, d, submissions[j]))
  {
    var keys, required := KeysOf(submissions), Required(def, d);
    RequiredAreDistinct(def, d);
    DistinctCount(required);
    DistinctCount(keys);
    forall role: SignerRole, id: Id
      ensures HasSigned(submissions, role, id)
              <==> Key(role, id) in required
    {
      KeyAmong(c, def, d, submissions, role, id);
    }
    forall role: SignerRole, id: Id
      ensures Key(role, id) in required <==>
              MustSign(def, d, role, id)
    {
      RequiredKey(def, d, role, id);
    }
    forall i, j | 0 <= i < j < |submissions|
      ensures && SignedBy(c, def, d, submissions[i]) && SignedBy(c, def, d, submissions[j])
              && Unrelated(IdentityOf(def, d, submissions[i]), IdentityOf(def, d, submissions[j]))
    {
      SignersAreUnrelated(c, o, def, d, submissions, i, j);
    }
  }

  /** The auditors who sign are enrolled under the keys their audits name, and external auditors use nobody's key. */
  lemma DecisionBindsPeople(c: Checks, o: Oracles, def: Definition, d: Decision, submissions: seq<Submission>, k: nat)
    requires Verified(c, def, d, submissions) && k < 2
    ensures exists a <- def.auditors :: a.id == d.audits[k].auditorId && a.keyId == d.audits[k].auditorKeyId
    ensures d.audits[0].auditorId != d.audits[1].auditorId && d.audits[0].auditorKeyId != d.audits[1].auditorKeyId
    ensures var key := d.externals[k].auditor.fingerprint;
            && key != def.coordinator.fingerprint && key != def.releaseSigner.fingerprint
            && forall a <- def.auditors :: a.fingerprint != key
    ensures d.externals[0].auditor.fingerprint != d.externals[1].auditor.fingerprint
    ensures d.ceremonyId == def.ceremonyId && d.sourceCommit == def.software.sourceCommit
    ensures d.decisionId == c.hash(d.(decisionId := ""))
  {
    hide ValidGates, Coherent, AllLocated, SignaturesHold;
    FirstWithIdIsMember(def.auditors, d.audits[k].auditorId);
    LessIrreflexive(d.audits[0].auditorId);
    assert EnrolledWithKey(def, d.audits[k].auditorId, d.audits[k].auditorKeyId);
    assert Outside(def, d.externals[k].auditor.fingerprint);
    forall a | a in def.auditors
      ensures a.fingerprint != d.externals[k].auditor.fingerprint
    {
      var j :| 0 <= j < |def.auditors| && def.auditors[j] == a;
    }
  }

  /** Signed with the key of the one person who may sign in that role under that id. */
  ghost predicate SignedInRole(c: Checks, def: Definition, d: Decision, s: Submission)
    requires s.Signature?
  {
    match s.role
    case CoordinatorSigner => s.signerId == def.coordinator.id && c.authentic(s.detached, def.coordinator)
    case ReleaseSigner => s.signerId == def.releaseSigner.id && c.authentic(s.detached, def.releaseSigner)
    case AuditorSigner =>
      && (exists a <- def.auditors :: a.id == s.signerId && c.authentic(s.detached, a))
      && (exists k | 0 <= k < |d.audits| :: d.audits[k].auditorId == s.signerId)
  }

  lemma SignerStates(c: Checks, def: Definition, d: Decision, s: Submission)
    requires SignedBy(c, def, d, s)
    ensures SignedInRole(c, def, d, s)
  {
    if s.role.AuditorSigner? {
      AuditorIsEnrolled(def, d.audits, s.signerId);
      FirstWithIdIsMember(def.auditors, s.signerId);
    }
  }

  /**
   What a verified decision says: it is a GO exactly when every gate has passed, no two files it pins share a name or
   a URI, and each signature is by someone else in a role of theirs.
   */
  lemma DecisionStates(c: Checks, def: Definition, d: Decision, submissions: seq<Submission>)
    requires Verified(c, def, d, submissions)
    ensures d.verdict.Go? <==> forall i | 0 <= i < |d.gates| :: d.gates[i].status.Pass?
    ensures forall a, b | Pinned(d, a) && Pinned(d, b) && (a.artifact.name == b.artifact.name || a.uri == b.uri) :: a == b
    ensures |submissions| >= 1
    ensures forall i | 0 <= i < |submissions| ::
              submissions[i].Signature? && SignedInRole(c, def, d, submissions[i])
    ensures forall i, j | 0 <= i < j < |submissions| ::
              submissions[i].role != submissions[j].role || submissions[i].signerId != submissions[j].signerId
  {
    hide AllLocated, Pinned, ValidGates, Coherent, SignedInRole, SignerIdentity, Binds, Key;
    forall a, b | Pinned(d, a) && Pinned(d, b) && (a.artifact.name == b.artifact.name || a.uri == b.uri)
      ensures a == b
    {
      AllLocatedHold(d, a);
      AllLocatedHold(d, b);
      NoConflict(AllLocated(d), a, b);
    }
    forall i | 0 <= i < |submissions|
      ensures submissions[i].Signature? && SignedInRole(c, def, d, submissions[i])
    {
      SignerStates(c, def, d, submissions[i]);
    }
    var keys := KeysOf(submissions);
    forall i, j | 0 <= i < j < |submissions|
      ensures submissions[i].role != submissions[j].role || submissions[i].signerId != submissions[j].signerId
    {
      assert keys[i] != keys[j];
    }
  }

  lemma KeyAmong(c: Checks, def: Definition, d: Decision, submissions: seq<Submission>, role: SignerRole, id: Id)
    requires |d.audits| == 2 && SignaturesHold(c, def, d, submissions) && d.verdict.Go?
    ensures HasSigned(submissions, role, id)
            <==> Key(role, id) in Required(def, d)
  {
    hide Key, SignerIdentity, Required;
    var keys := KeysOf(submissions);
    assert Key(role, id) in Required(def, d) <==> Key(role, id) in Elements(Required(def, d));
    assert Key(role, id) in keys <==> Key(role, id) in Elements(keys);
    if i :| 0 <= i < |submissions| && submissions[i].Signature? && submissions[i].role == role && submissions[i].signerId == id {
      assert keys[i] == Key(role, id) && keys[i] in Elements(keys);
    }
    if Key(role, id) in keys {
      var i :| 0 <= i < |keys| && keys[i] == Key(role, id);
      assert SignedBy(c, def, d, submissions[i]);
      KeyIsInjective(submissions[i].role, submissions[i].signerId, role, id);
    }
  }

  lemma RequiredKey(def: Definition, d: Decision, role: SignerRole, id: Id)
    requires |d.audits| == 2
    ensures Key(role, id) in Required(def, d) <==>
            MustSign(def, d, role, id)
  {
    hide Key;
    var required := Required(def, d);
    if Key(role, id) in required {
      var k :| 0 <= k < 4 && required[k] == Key(role, id);
      if k == 0 {
        KeyIsInjective(role, id, CoordinatorSigner, def.coordinator.id);
      } else if k == 1 {
        KeyIsInjective(role, id, AuditorSigner, d.audits[0].auditorId);
      } else if k == 2 {
        KeyIsInjective(role, id, AuditorSigner, d.audits[1].auditorId);
      } else {
        KeyIsInjective(role, id, ReleaseSigner, def.releaseSigner.id);
      }
    }
    assert required[0] in required && required[1] in required && required[2] in required && required[3] in required;
  }

  /** The evidence root has, under each reference's name, an artifact with exactly the reference's digest. */
  ghost predicate Intact(root: string -> Option<ArtifactRef>, refs: seq<Located>) {
    forall i | 0 <= i < |refs| :: root(refs[i].artifact.name) == Some(refs[i].artifact)
  }

  /** Hashes one copy of each artifact, which covers every reference of a coherent decision. */
  method VerifyArtifacts(root: string -> Option<ArtifactRef>, refs: seq<Located>) returns (ok: bool)
    requires Coherent(refs)
    ensures ok <==> Intact(root, refs)
  {
    hide Coherent, OnePerUri, Conflict;
    var unique := UniqueLocated(refs);
    UniqueKeepsCoherent(refs, unique);
    for i := 0 to |unique|
      invariant forall k | 0 <= k < i :: root(unique[k].artifact.name) == Some(unique[k].artifact)
    {
      var actual := root(unique[i].artifact.name);
      if actual.None? || actual.value != unique[i].artifact {
        assert unique[i] in refs;
        return false;
      }
    }
    assert forall k | 0 <= k < |refs| :: refs[k] in unique;
    ok := true;
  }

  lemma PinnedIsIntact(root: string -> Option<ArtifactRef>, d: Decision)
    ensures Intact(root, AllLocated(d)) <==> forall ref | Pinned(d, ref) :: root(ref.artifact.name) == Some(ref.artifact)
  {
    hide AllLocated, Pinned;
    var all := AllLocated(d);
    forall ref
      ensures ref in all <==> Pinned(d, ref)
    {
      AllLocatedHold(d, ref);
    }
    if Intact(root, all) {
      forall ref | Pinned(d, ref)
        ensures root(ref.artifact.name) == Some(ref.artifact)
      {
        var i :| 0 <= i < |all| && all[i] == ref;
      }
    }
    if forall ref | Pinned(d, ref) :: root(ref.artifact.name) == Some(ref.artifact) {
      assert forall i | 0 <= i < |all| :: all[i] in all;
    }
  }

  /** `contents` stands for what the release, operational and audit files themselves must contain. */
  method VerifyProductionDecision(c: Checks, o: Oracles, def: Definition, d: Decision, contents: (Definition, Decision) -> bool,
                                  root: string -> Option<ArtifactRef>, submissions: seq<Submission>)
    returns (verified: Option<seq<string>>)
    ensures verified.Some? <==>
              && ValidDefinition(o, def) && Verified(c, def, d, submissions)
              && Intact(root, AllLocated(d)) && contents(def, d)
    ensures verified.Some? ==> verified.value == Sorted(KeysOf(submissions))
    ensures verified.Some? ==> forall ref | Pinned(d, ref) :: root(ref.artifact.name) == Some(ref.artifact)
  {
    hide ValidDefinition, Binds, Intact, SignaturesHold, AllLocated, Sorted, KeysOf, Pinned;
    PinnedIsIntact(root, d);
    if !ValidDefinition(o, def) {
      return None;
    }
    var valid := ValidateDecision(c, d);
    if !valid {
      return None;
    }
    var bound := ValidateBinding(c, def, d);
    if !bound {
      return None;
    }
    var intact := VerifyArtifacts(root, AllLocated(d));
    if !intact || !contents(def, d) {
      return None;
    }
    verified := VerifySignatures(c, def, d, submissions);
  }
}
