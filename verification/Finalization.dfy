/** Steps of finalization and audit replay: stored contribution evidence, seal outputs, and the public input scalar. */
module Finalization {
  import opened Common
  import opened Records
  import opened Definitions
  import opened Chains
  import opened Acceptances
  import opened Evidence
  import opened Custody
  import opened Layout
  import BatchTranscripts

  // ----- Contribution evidence -----

  datatype Step = Step(attestation: Attestation, erasure: Erasure)

  /**
   What the evidence root says about record i: the two documents it names, when all five artifacts load, the
   verification matches, both signatures are the enrolled participant's, and the record was acceptable after the
   records before it.
   */
  function OpenStep(w: World, root: Root, d: Definition, c: Chain, i: nat): Option<Step>
    requires i < |c.records|
  {
    var r := c.records[i];
    match (LoadAttestation(w, root, r.attestation), LoadErasure(w, root, r.erasure),
           LoadVerification(w, root, r.verification), ParticipantById(d, r.participantId))
    case (Some(a), Some(e), Some(v), Some(participant)) =>
      if && v == VerificationOf(r)
         && SignedBy(w, root, SignedRefs(r.attestation, r.attestationSignature), participant)
         && SignedBy(w, root, SignedRefs(r.erasure, r.erasureSignature), participant)
         && Acceptable(w.oracles, d, c.Prefix(i), a, e, r)
      then Some(Step(a, e)) else None
    case _ => None
  }

  method ValidateContributionEvidence(w: World, root: Root, d: Definition, c: Chain) returns (ok: bool)
    ensures ok <==> forall i | 0 <= i < |c.records| :: OpenStep(w, root, d, c, i).Some?
  {
    hide Acceptable, ParticipantById;
    for i := 0 to |c.records|
      invariant forall k | 0 <= k < i :: OpenStep(w, root, d, c, k).Some?
    {
      var r := c.records[i];
      ghost var step := OpenStep(w, root, d, c, i);
      if !Loads(w, root, r.attestation) || !Loads(w, root, r.attestationSignature) {
        return false;
      }
      if !Loads(w, root, r.erasure) || !Loads(w, root, r.erasureSignature) {
        return false;
      }
      var verification := LoadVerification(w, root, r.verification);
      if verification.None? || verification.value != VerificationOf(r) {
        return false;
      }
      var participant := ParticipantById(d, r.participantId);
      if participant.None? {
        return false;
      }
      var attestation := LoadAttestation(w, root, r.attestation);
      if attestation.None?
         || !SignedBy(w, root, SignedRefs(r.attestation, r.attestationSignature), participant.value) {
        return false;
      }
      var erasure := LoadErasure(w, root, r.erasure);
      if erasure.None? || !SignedBy(w, root, SignedRefs(r.erasure, r.erasureSignature), participant.value) {
        return false;
      }
      var prefix := c.(records := c.records[..i]);
      if !Acceptable(w.oracles, d, prefix, attestation.value, erasure.value, r) {
        return false;
      }
    }
    ok := true;
  }

  /**
   The check rebuilds each prefix and asks whether its record was acceptable there. It says nothing about the
   schedule of the last record: the chain fits its definition exactly when that one is the next scheduled, while
   every earlier record must have been.
   */
  lemma EvidenceFixesSchedule(w: World, root: Root, d: Definition, c: Chain)
    requires |c.records| > 0
    requires forall i | 0 <= i < |c.records| :: OpenStep(w, root, d, c, i).Some?
    ensures var n := |c.records| - 1;
            ValidAgainstDefinition(w.oracles, c, d) <==> NextInSchedule(d, c.Prefix(n), c.records[n])
    ensures forall i | 0 <= i < |c.records| - 1 :: NextInSchedule(d, c.Prefix(i), c.records[i])
  {
    hide NextInSchedule, ValidAgainstDefinition;
    var n := |c.records| - 1;
    StepExtends(w, root, d, c, n);
    assert c.Prefix(n + 1) == c;
    forall i | 0 <= i < n
      ensures NextInSchedule(d, c.Prefix(i), c.records[i])
    {
      StepExtends(w, root, d, c, i);
      StepExtends(w, root, d, c, i + 1);
    }
  }

  lemma StepExtends(w: World, root: Root, d: Definition, c: Chain, i: nat)
    requires i < |c.records| && OpenStep(w, root, d, c, i).Some?
    ensures ValidAgainstDefinition(w.oracles, c.Prefix(i), d)
    ensures ValidAgainstDefinition(w.oracles, c.Prefix(i + 1), d) <==> NextInSchedule(d, c.Prefix(i), c.records[i])
  {
    hide NextInSchedule, ValidAgainstDefinition;
    var step := OpenStep(w, root, d, c, i).value;
    AcceptableIsAppendable(w.oracles, d, c.Prefix(i), step.attestation, step.erasure, c.records[i]);
    assert c.Prefix(i).Extend(c.records[i]) == c.Prefix(i + 1);
  }

  /** In a chain whose evidence holds, each contribution and each erasure lies strictly between two acceptances. */
  lemma EvidenceChronology(w: World, root: Root, d: Definition, c: Chain, i: nat, j: nat)
    requires i <= j < |c.records|
    requires forall k | 0 <= k < |c.records| :: OpenStep(w, root, d, c, k).Some?
    ensures var a, b := OpenStep(w, root, d, c, i).value, OpenStep(w, root, d, c, j).value;
            && d.createdAt < a.attestation.contributedAt < a.erasure.destroyedAt < c.records[i].acceptedAt
            && (i < j ==> c.records[i].acceptedAt < b.attestation.contributedAt)
    decreases j
  {
    hide OpenStep;
    StepTimes(w, root, d, c, i);
    StepTimes(w, root, d, c, j);
    if i < j - 1 {
      EvidenceChronology(w, root, d, c, i, j - 1);
      StepTimes(w, root, d, c, j - 1);
    }
  }

  /** What a held step says: its documents are those the record names, signed by the enrolled participant. */
  lemma StepStates(w: World, root: Root, d: Definition, c: Chain, i: nat) returns (participant: Identity)
    requires i < |c.records| && OpenStep(w, root, d, c, i).Some?
    ensures var r, step := c.records[i], OpenStep(w, root, d, c, i).value;
            && participant in d.roster && participant.id == r.participantId
            && SignedDocument(w, root, SignedRefs(r.attestation, r.attestationSignature), AttestationDoc(step.attestation), participant)
            && SignedDocument(w, root, SignedRefs(r.erasure, r.erasureSignature), ErasureDoc(step.erasure), participant)
            && Load(w, root, r.verification) == Some(VerificationDoc(VerificationOf(r)))
            && step.attestation.outputPayload == r.outputPayload == step.erasure.outputPayload
            && step.attestation.attestationId == r.attestationId && step.erasure.erasureId == r.erasureId
            && (i == 0 ==> r.previousPayload == c.genesis)
            && (i > 0 ==> r.previousPayload == c.records[i - 1].outputPayload)
  {
    hide Acceptable, SignedBy, VerificationOf;
    var r, step := c.records[i], OpenStep(w, root, d, c, i).value;
    participant := ParticipantById(d, r.participantId).value;
    FirstWithIdIsMember(d.roster, r.participantId);
    AcceptanceStates(w.oracles, d, c.Prefix(i), step.attestation, step.erasure, r);
    LoadedAre(w, root, r.attestation, r.attestation, r.erasure);
    SignedDocumentLoads(w, root, SignedRefs(r.attestation, r.attestationSignature), AttestationDoc(step.attestation), participant);
    SignedDocumentLoads(w, root, SignedRefs(r.erasure, r.erasureSignature), ErasureDoc(step.erasure), participant);
  }

  lemma StepTimes(w: World, root: Root, d: Definition, c: Chain, i: nat)
    requires i < |c.records| && OpenStep(w, root, d, c, i).Some?
    ensures var step := OpenStep(w, root, d, c, i).value;
            && d.createdAt < step.attestation.contributedAt < step.erasure.destroyedAt < c.records[i].acceptedAt
            && (i > 0 ==> c.records[i - 1].acceptedAt < step.attestation.contributedAt)
  {
    hide Acceptable;
    var step := OpenStep(w, root, d, c, i).value;
    AcceptanceTimes(w.oracles, d, c.Prefix(i), step.attestation, step.erasure, c.records[i]);
  }

  // ----- Seal outputs -----

  /** The only output with the digest, if there is exactly one; an output without a name would count as none. */
  method SealOutputByDigest(outputs: seq<ArtifactRef>, expected: Digest) returns (found: Option<ArtifactRef>)
    requires forall output <- outputs :: output.name != ""
    ensures found.Some? <==> exists i | 0 <= i < |outputs| ::
              outputs[i].digest == expected && forall j | 0 <= j < |outputs| :: outputs[j].digest == expected ==> j == i
    ensures found.Some? ==> found.value in outputs && found.value.digest == expected
  {
    var at: Option<nat> := None;
    found := None;
    for i := 0 to |outputs|
      invariant at.None? <==> found.None?
      invariant at.None? ==> forall j | 0 <= j < i :: outputs[j].digest != expected
      invariant at.Some? ==>
                  && at.value < i && outputs[at.value].digest == expected && found == Some(outputs[at.value])
                  && forall j | 0 <= j < i :: outputs[j].digest == expected ==> j == at.value
    {
      if outputs[i].digest == expected {
        if found.Some? {
          return None;
        }
        found, at := Some(outputs[i]), Some(i);
      }
    }
  }

  // ----- The public input -----

  function LittleEndian(bytes: seq<Byte>): nat {
    if bytes == [] then 0 else bytes[0] + 0x100 * LittleEndian(bytes[1..])
  }

  lemma {:induction false} ReversedDigits(reversed: seq<Byte>, bytes: seq<Byte>)
    requires |reversed| == |bytes|
    requires forall k | 0 <= k < |bytes| :: reversed[k] == bytes[|bytes| - 1 - k]
    ensures BigEndian(reversed) == LittleEndian(bytes)
  {
    if bytes != [] {
      ReversedDigits(reversed[..|reversed| - 1], bytes[1..]);
    }
  }

  /** The digest read little-endian, by reversing a copy in place and reading that big-endian, modulo the field order. */
  method PublicInputScalar(digest: seq<Byte>) returns (scalar: int)
    ensures 0 <= scalar < BatchTranscripts.ORDER
    ensures LittleEndian(digest) == LittleEndian(digest) / BatchTranscripts.ORDER * BatchTranscripts.ORDER + scalar
  {
    var n := |digest|;
    var reversed := new Byte[n](k requires 0 <= k < n => digest[k]);
    var left, right := 0, n - 1;
    while left < right
      invariant 0 <= left <= right + 1 <= n && right == n - 1 - left
      invariant forall k | 0 <= k < left || right < k < n :: reversed[k] == digest[n - 1 - k]
      invariant forall k | left <= k <= right :: reversed[k] == digest[k]
    {
      reversed[left], reversed[right] := reversed[right], reversed[left];
      left, right := left + 1, right - 1;
    }
    ReversedDigits(reversed[..], digest);
    scalar := BigEndian(reversed[..]) % BatchTranscripts.ORDER;
  }
}
