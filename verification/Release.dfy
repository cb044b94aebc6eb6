/** Release checks: the exact file tree, and the passing audits that a release must follow. */
module Releases {
  import opened Common
  import opened Records
  import opened Definitions
  import opened Order

  // ----- The exact tree -----

  datatype Kind = Directory | Regular | SymbolicLink | Irregular

  /** One entry of a walk over the tree, under its path relative to the root, which itself is ".". */
  datatype Entry = Entry(name: string, kind: Kind)

  /** The position of the last slash plus one, or 0. */
  function AfterLastSlash(name: string): (at: nat)
    ensures at <= |name|
    ensures at > 0 ==> name[at - 1] == '/'
    ensures forall k | at <= k < |name| :: name[k] != '/'
  {
    if name == "" then 0
    else if name[|name| - 1] == '/' then |name|
    else AfterLastSlash(name[..|name| - 1])
  }

  /** The containing directory of a clean relative name. */
  function Parent(name: string): (parent: string)
    ensures parent == "." || |parent| < |name|
  {
    var at := AfterLastSlash(name);
    if at == 0 then "." else name[..at - 1]
  }

  /** All containing directories below the root. */
  function Ancestors(name: string): set<string>
    decreases |name|
  {
    var parent := Parent(name);
    if parent == "." || |parent| >= |name| then {} else {parent} + Ancestors(parent)
  }

  /** They are exactly the prefixes that end before a slash. */
  lemma {:induction false} AncestorsArePrefixes(name: string, directory: string)
    ensures directory in Ancestors(name) <==>
            directory != "." && |directory| < |name| && directory <= name && name[|directory|] == '/'
    decreases |name|
  {
    var parent := Parent(name);
    var at := AfterLastSlash(name);
    if parent != "." {
      AncestorsArePrefixes(parent, directory);
      assert parent == name[..at - 1];
      if |directory| < |name| && directory <= name && name[|directory|] == '/' {
        assert |directory| <= |parent|;
        assert |directory| < |parent| ==> parent[|directory|] == '/';
        assert directory == name[..|directory|];
      }
      if directory in Ancestors(parent) {
        assert directory <= name;
      }
    } else if at > 0 {
      assert name[..1] == "." && at == 2;
      assert |directory| < |name| && name[|directory|] == '/' ==> |directory| <= 1;
      SlashInDotName(name, directory);
    }
  }

  lemma SlashInDotName(name: string, directory: string)
    requires AfterLastSlash(name) == 2 && name[0] == '.'
    ensures |directory| < |name| && directory <= name && name[|directory|] == '/' ==> directory == "."
  {
    if |directory| < |name| && directory <= name && name[|directory|] == '/' {
      assert |directory| == 1;
      assert directory == name[..1];
    }
  }

  /** The directories that must exist: the root and every containing directory of a file. */
  ghost function Directories(names: seq<string>): set<string> {
    {"."} + set i, directory | 0 <= i < |names| && directory in Ancestors(names[i]) :: directory
  }

  /** The walk meets exactly these files and directories, each once, and nothing of any other kind. */
  ghost predicate ExactTree(entries: seq<Entry>, files: set<string>, directories: set<string>) {
    && (forall i | 0 <= i < |entries| :: entries[i].kind.Regular? || entries[i].kind.Directory?)
    && (forall i, j | 0 <= i < j < |entries| :: entries[i] != entries[j])
    && (forall name :: name in files <==> Entry(name, Regular) in entries)
    && (forall name :: name in directories <==> Entry(name, Directory) in entries)
  }

  method Expected(validName: string -> bool, names: seq<string>)
    returns (ok: bool, files: set<string>, directories: set<string>)
    ensures ok <==> Distinct(names) && forall i | 0 <= i < |names| :: validName(names[i])
    ensures ok ==> files == Elements(names) && directories == Directories(names)
  {
    hide Ancestors, Parent;
    files, directories := {}, {"."};
    for i := 0 to |names|
      invariant Distinct(names[..i]) && forall k | 0 <= k < i :: validName(names[k])
      invariant files == Elements(names[..i]) && directories == Directories(names[..i])
    {
      if !validName(names[i]) {
        return false, {}, {};
      }
      if names[i] in files {
        return false, {}, {};
      }
      files := files + {names[i]};
      var above := ContainingDirectories(names[i]);
      directories := directories + above;
      DirectoriesStep(names, i);
    }
    assert names[..|names|] == names;
    ok := true;
  }

  lemma DirectoriesStep(names: seq<string>, i: nat)
    requires i < |names|
    ensures Directories(names[..i + 1]) == Directories(names[..i]) + Ancestors(names[i])
    ensures Elements(names[..i + 1]) == Elements(names[..i]) + {names[i]}
  {
    hide Ancestors;
    var before, after := names[..i], names[..i + 1];
    assert after == before + [names[i]];
    forall directory
      ensures directory in Directories(after) <==> directory in Directories(before) + Ancestors(names[i])
    {
      if directory in Ancestors(names[i]) {
        assert directory in Ancestors(after[i]);
      }
      if k :| 0 <= k < |before| && directory in Ancestors(before[k]) {
        assert directory in Ancestors(after[k]);
      }
      if k :| 0 <= k < |after| && directory in Ancestors(after[k]) {
        assert k < i ==> directory in Ancestors(before[k]);
      }
    }
  }

  /** The inner loop: from the name upwards until the root. */
  method ContainingDirectories(name: string) returns (directories: set<string>)
    ensures directories == Ancestors(name)
  {
    directories := {};
    var parent := Parent(name);
    ghost var below := name;
    while parent != "."
      invariant parent == Parent(below)
      invariant Ancestors(name) == directories + Ancestors(below)
      decreases |parent| + (if parent == "." then 0 else 2)
    {
      directories := directories + {parent};
      below := parent;
      parent := Parent(parent);
    }
  }

  /** What remains of the expected names after part of a walk, whose entries were all expected and all different. */
  ghost predicate Struck(entries: seq<Entry>, files: set<string>, directories: set<string>, restFiles: set<string>, restDirectories: set<string>) {
    && (forall i, j | 0 <= i < j < |entries| :: entries[i] != entries[j])
    && (forall i | 0 <= i < |entries| :: ExpectedEntry(entries[i], files, directories))
    && (forall name :: name in restFiles <==> name in files && Entry(name, Regular) !in entries)
    && (forall name :: name in restDirectories <==> name in directories && Entry(name, Directory) !in entries)
  }

  ghost predicate ExpectedEntry(entry: Entry, files: set<string>, directories: set<string>) {
    || (entry.kind.Regular? && entry.name in files)
    || (entry.kind.Directory? && entry.name in directories)
  }

  lemma StrikeOff(entries: seq<Entry>, files: set<string>, directories: set<string>,
                  restFiles: set<string>, restDirectories: set<string>, entry: Entry)
    requires Struck(entries, files, directories, restFiles, restDirectories)
    ensures entry.kind.Regular? && entry.name in restFiles ==>
              Struck(entries + [entry], files, directories, restFiles - {entry.name}, restDirectories)
    ensures entry.kind.Directory? && entry.name in restDirectories ==>
              Struck(entries + [entry], files, directories, restFiles, restDirectories - {entry.name})
    ensures entry.kind.Regular? && entry.name !in restFiles ==> entry in entries || !ExpectedEntry(entry, files, directories)
    ensures entry.kind.Directory? && entry.name !in restDirectories ==>
              entry in entries || !ExpectedEntry(entry, files, directories)
  {
  }

  /** An entry that is unexpected, or that was met before, spoils the tree. */
  lemma Spoils(entries: seq<Entry>, files: set<string>, directories: set<string>, i: nat)
    requires i < |entries|
    requires entries[i] in entries[..i] || !ExpectedEntry(entries[i], files, directories)
    ensures !ExactTree(entries, files, directories)
  {
    var entry := entries[i];
    assert entry in entries;
    if entry in entries[..i] {
      var k :| 0 <= k < i && entries[..i][k] == entry;
      assert entries[k] == entries[i];
    }
  }

  lemma StruckCompletely(entries: seq<Entry>, files: set<string>, directories: set<string>,
                         restFiles: set<string>, restDirectories: set<string>)
    requires Struck(entries, files, directories, restFiles, restDirectories)
    ensures ExactTree(entries, files, directories) <==> restFiles == {} && restDirectories == {}
  {
    if ExactTree(entries, files, directories) {
      assert forall name :: name !in restFiles && name !in restDirectories;
    }
    if restFiles == {} && restDirectories == {} {
      forall name
        ensures name in files <==> Entry(name, Regular) in entries
        ensures name in directories <==> Entry(name, Directory) in entries
      {
        if Entry(name, Regular) in entries {
          assert ExpectedEntry(Entry(name, Regular), files, directories);
        }
        if Entry(name, Directory) in entries {
          assert ExpectedEntry(Entry(name, Directory), files, directories);
        }
      }
    }
  }

  /** The walk: every entry is struck off the list it must be on, and nothing may be left over. */
  method VerifyReleaseTreeExact(validName: string -> bool, names: seq<string>, entries: seq<Entry>) returns (ok: bool)
    ensures ok <==>
              && Distinct(names) && (forall i | 0 <= i < |names| :: validName(names[i]))
              && ExactTree(entries, Elements(names), Directories(names))
  {
    hide Elements, Directories, Struck, ExactTree;
    var valid, expectedFiles, expectedDirectories := Expected(validName, names);
    if !valid {
      return false;
    }
    ghost var files, directories := expectedFiles, expectedDirectories;
    NothingStruck(files, directories);
    for i := 0 to |entries|
      invariant Struck(entries[..i], files, directories, expectedFiles, expectedDirectories)
    {
      var entry := entries[i];
      assert entries[..i + 1] == entries[..i] + [entry];
      StrikeOff(entries[..i], files, directories, expectedFiles, expectedDirectories, entry);
      if entry.kind.SymbolicLink? || (entry.kind.Directory? && entry.name !in expectedDirectories) {
        Spoils(entries, files, directories, i);
        return false;
      }
      if entry.kind.Directory? {
        expectedDirectories := expectedDirectories - {entry.name};
      } else {
        if !entry.kind.Regular? || entry.name !in expectedFiles {
          Spoils(entries, files, directories, i);
          return false;
        }
        expectedFiles := expectedFiles - {entry.name};
      }
    }
    assert entries[..|entries|] == entries;
    StruckCompletely(entries, files, directories, expectedFiles, expectedDirectories);
    ok := expectedFiles == {} && expectedDirectories == {};
  }

  lemma NothingStruck(files: set<string>, directories: set<string>)
    ensures Struck([], files, directories, files, directories)
  {
  }

  // ----- Passing audits -----

  datatype AuditRecord = AuditRecord(
    ceremonyId: Id, auditorId: Id, auditorKeyId: Id, passed: bool, findings: seq<string>, subject: Subject,
    outputs: seq<ArtifactRef>, auditedAt: Instant)

  /** What an audit is about: the replayed records of one candidate. */
  datatype Subject = Subject(
    definition: ArtifactRef, phase1Chain: ArtifactRef, phase2Chain: ArtifactRef, phase1SealId: Id, phase2SealId: Id,
    replayRoot: Id)

  datatype Candidate = Candidate(subject: Subject, outputs: seq<ArtifactRef>, finalizedAt: Instant)

  /** The exact bytes of a record and of its signature, and the name it is to be referenced under. */
  datatype AuditFile = AuditFile(record: string, signature: string, logicalName: string, baseName: string)

  /** Decoding with single-field formats, Ed25519 over exact bytes, digests, and the reference format. */
  datatype Reading = Reading(
    decode: string -> Option<AuditRecord>, signed: (string, string, Identity) -> bool, digest: string -> Digest,
    validRef: ArtifactRef -> bool)

  datatype Audit = Audit(record: AuditRecord, ref: ArtifactRef)

  function RefOf(x: Reading, file: AuditFile): ArtifactRef {
    ArtifactRef(if file.logicalName == "" then file.baseName else file.logicalName, x.digest(file.record))
  }

  /** A passing audit of exactly this candidate, signed by the enrolled auditor it names. */
  function OpenAudit(x: Reading, d: Definition, candidate: Candidate, file: AuditFile): Option<Audit> {
    match x.decode(file.record)
    case None => None
    case Some(r) =>
      var auditor := FirstWithId(d.auditors, r.auditorId);
      if && auditor.Some? && auditor.value.keyId == r.auditorKeyId
         && x.signed(file.record, file.signature, auditor.value)
         && r.passed && r.findings == []
         && r.ceremonyId == d.ceremonyId && r.subject == candidate.subject
         && r.outputs == candidate.outputs
         && r.auditedAt > candidate.finalizedAt
         && x.validRef(RefOf(x, file))
      then Some(Audit(r, RefOf(x, file))) else None
  }

  /** The audits behind the files, if each of them opens. */
  function OpenAudits(x: Reading, d: Definition, candidate: Candidate, files: seq<AuditFile>): (audits: Option<seq<Audit>>)
    ensures audits.Some? ==> |audits.value| == |files|
  {
    if files == [] then Some([])
    else
      match (OpenAudits(x, d, candidate, files[..|files| - 1]), OpenAudit(x, d, candidate, files[|files| - 1]))
      case (Some(audits), Some(last)) => Some(audits + [last])
      case _ => None
  }

  lemma {:induction false} OpenAuditsPrefix(x: Reading, d: Definition, candidate: Candidate, files: seq<AuditFile>, i: nat)
    requires i <= |files|
    ensures OpenAudits(x, d, candidate, files).Some? ==>
              && OpenAudits(x, d, candidate, files[..i]).Some?
              && OpenAudits(x, d, candidate, files[..i]).value == OpenAudits(x, d, candidate, files).value[..i]
    decreases |files|
  {
    hide OpenAudit;
    if i < |files| {
      var front := files[..|files| - 1];
      OpenAuditsPrefix(x, d, candidate, front, i);
      assert front[..i] == files[..i];
    } else {
      assert files[..i] == files;
    }
  }

  ghost predicate DistinctAuditors(audits: seq<Audit>) {
    forall i, j | 0 <= i < j < |audits| ::
      && audits[i].record.auditorId != audits[j].record.auditorId
      && audits[i].record.auditorKeyId != audits[j].record.auditorKeyId
  }

  ghost predicate AuditsHold(x: Reading, d: Definition, candidate: Candidate, files: seq<AuditFile>) {
    var audits := OpenAudits(x, d, candidate, files);
    |files| >= 2 && audits.Some? && DistinctAuditors(audits.value)
  }

  function RefsOf(audits: seq<Audit>): (refs: seq<ArtifactRef>)
    ensures |refs| == |audits|
  {
    seq(|audits|, i requires 0 <= i < |audits| => audits[i].ref)
  }

  ghost function AuditTimes(audits: seq<Audit>): iset<Instant> {
    iset i | 0 <= i < |audits| :: audits[i].record.auditedAt
  }

  /** At least two audits, all opening for this candidate, by different auditors under different keys. */
  method VerifyPassingAudits(x: Reading, d: Definition, candidate: Candidate, files: seq<AuditFile>)
    returns (ok: bool, refs: seq<ArtifactRef>, latest: Instant)
    ensures ok <==> AuditsHold(x, d, candidate, files)
    ensures ok ==> refs == RefsOf(OpenAudits(x, d, candidate, files).value)
    ensures ok ==> IsLatest(AuditTimes(OpenAudits(x, d, candidate, files).value), latest)
  {
    hide OpenAudit, OpenAudits, IsLatest;
    ok, refs, latest := false, [], ZERO_TIME;
    if |files| < 2 {
      return;
    }
    ghost var all := OpenAudits(x, d, candidate, files);
    ghost var audits: seq<Audit> := [];
    var seenAuditor: set<Id> := {};
    var seenKey: set<Id> := {};
    NoAudits(x, d, candidate);
    assert files[..0] == [];
    for i := 0 to |files|
      invariant OpenAudits(x, d, candidate, files[..i]) == Some(audits) && DistinctAuditors(audits)
      invariant seenAuditor == (set a | a in audits :: a.record.auditorId)
      invariant seenKey == (set a | a in audits :: a.record.auditorKeyId)
      invariant refs == RefsOf(audits) && IsLatest(AuditTimes(audits), latest)
    {
      OpenAuditsPrefix(x, d, candidate, files, i + 1);
      NextAudit(x, d, candidate, files, i);
      var next := VerifyAudit(x, d, candidate, files[i]);
      if next.None? {
        return;
      }
      var audit := next.value;
      LatestStep(audits, audit, latest);
      if audit.record.auditedAt > latest {
        latest := audit.record.auditedAt;
      }
      DistinctStep(audits, audit);
      if audit.record.auditorId in seenAuditor || audit.record.auditorKeyId in seenKey {
        DistinctFront(all, audits + [audit]);
        return;
      }
      seenAuditor := seenAuditor + {audit.record.auditorId};
      seenKey := seenKey + {audit.record.auditorKeyId};
      refs := refs + [audit.ref];
      audits := audits + [audit];
    }
    assert files[..|files|] == files;
    ok := true;
  }

  /** One file: enrolled signer, signature, passing verdict, candidate, outputs and time. */
  method VerifyAudit(x: Reading, d: Definition, candidate: Candidate, file: AuditFile) returns (audit: Option<Audit>)
    ensures audit == OpenAudit(x, d, candidate, file)
  {
    var record := x.decode(file.record);
    if record.None? {
      return None;
    }
    var r := record.value;
    var auditor := FirstWithId(d.auditors, r.auditorId);
    if auditor.None? || auditor.value.keyId != r.auditorKeyId {
      return None;
    }
    if !x.signed(file.record, file.signature, auditor.value) {
      return None;
    }
    if !r.passed || |r.findings| != 0 {
      return None;
    }
    if r.ceremonyId != d.ceremonyId || r.subject != candidate.subject || r.outputs != candidate.outputs {
      return None;
    }
    if r.auditedAt <= candidate.finalizedAt {
      return None;
    }
    var name := file.logicalName;
    if name == "" {
      name := file.baseName;
    }
    var ref := ArtifactRef(name, x.digest(file.record));
    if !x.validRef(ref) {
      return None;
    }
    audit := Some(Audit(r, ref));
  }

  lemma NoAudits(x: Reading, d: Definition, candidate: Candidate)
    ensures OpenAudits(x, d, candidate, []) == Some([])
    ensures IsLatest(AuditTimes([]), ZERO_TIME)
  {
  }

  lemma NextAudit(x: Reading, d: Definition, candidate: Candidate, files: seq<AuditFile>, i: nat)
    requires i < |files| && OpenAudits(x, d, candidate, files[..i]).Some?
    ensures var next := OpenAudit(x, d, candidate, files[i]);
            OpenAudits(x, d, candidate, files[..i + 1]) ==
            if next.Some? then Some(OpenAudits(x, d, candidate, files[..i]).value + [next.value]) else None
  {
    hide OpenAudit;
    assert files[..i + 1][..i] == files[..i];
  }

  lemma DistinctStep(audits: seq<Audit>, next: Audit)
    requires DistinctAuditors(audits)
    ensures DistinctAuditors(audits + [next]) <==>
            forall a | a in audits ::
              a.record.auditorId != next.record.auditorId && a.record.auditorKeyId != next.record.auditorKeyId
  {
    var longer := audits + [next];
    assert longer[|audits|] == next;
    if DistinctAuditors(longer) {
      forall a | a in audits
        ensures a.record.auditorId != next.record.auditorId && a.record.auditorKeyId != next.record.auditorKeyId
      {
        var i :| 0 <= i < |audits| && audits[i] == a;
        assert longer[i] == a;
      }
    }
  }

  lemma DistinctFront(all: Option<seq<Audit>>, front: seq<Audit>)
    requires all.Some? ==> front <= all.value
    ensures all.Some? && DistinctAuditors(all.value) ==> DistinctAuditors(front)
  {
    if all.Some? && DistinctAuditors(all.value) {
      assert forall i | 0 <= i < |front| :: front[i] == all.value[i];
    }
  }

  lemma LatestStep(audits: seq<Audit>, next: Audit, latest: Instant)
    requires IsLatest(AuditTimes(audits), latest)
    ensures IsLatest(AuditTimes(audits + [next]), if next.record.auditedAt > latest then next.record.auditedAt else latest)
  {
    var longer := audits + [next];
    assert longer[|audits|] == next;
    forall at
      ensures at in AuditTimes(longer) <==> at in AuditTimes(audits) || at == next.record.auditedAt
    {
      if i :| 0 <= i < |audits| && audits[i].record.auditedAt == at {
        assert longer[i] == audits[i];
      }
    }
  }

  /** Requiring a release to follow the latest audit puts it after every audit, and every audit after the candidate. */
  lemma ReleaseFollowsAudits(x: Reading, d: Definition, candidate: Candidate, files: seq<AuditFile>, latest: Instant, releasedAt: Instant)
    requires AuditsHold(x, d, candidate, files)
    requires IsLatest(AuditTimes(OpenAudits(x, d, candidate, files).value), latest)
    ensures var audits := OpenAudits(x, d, candidate, files).value;
            && (releasedAt > latest <==>
                  releasedAt > ZERO_TIME && forall i | 0 <= i < |audits| :: audits[i].record.auditedAt < releasedAt)
            && (forall i | 0 <= i < |audits| :: candidate.finalizedAt < audits[i].record.auditedAt)
            && (releasedAt > latest ==> candidate.finalizedAt < releasedAt)
  {
    hide OpenAudit;
    var audits := OpenAudits(x, d, candidate, files).value;
    forall i | 0 <= i < |audits|
      ensures candidate.finalizedAt < audits[i].record.auditedAt && audits[i].record.auditedAt in AuditTimes(audits)
    {
      AuditBehind(x, d, candidate, files, i);
    }
    assert audits[0].record.auditedAt in AuditTimes(audits);
  }

  lemma AuditBehind(x: Reading, d: Definition, candidate: Candidate, files: seq<AuditFile>, i: nat)
    requires OpenAudits(x, d, candidate, files).Some? && i < |files|
    ensures OpenAudit(x, d, candidate, files[i]) == Some(OpenAudits(x, d, candidate, files).value[i])
    ensures candidate.finalizedAt < OpenAudits(x, d, candidate, files).value[i].record.auditedAt
  {
    OpenAuditsPrefix(x, d, candidate, files, i + 1);
    OpenAuditsPrefix(x, d, candidate, files, i);
    NextAudit(x, d, candidate, files, i);
  }

  /** What an accepted audit says: it passed without findings, about this candidate with exactly its outputs. */
  lemma AuditStates(x: Reading, d: Definition, candidate: Candidate, files: seq<AuditFile>, i: nat)
    requires AuditsHold(x, d, candidate, files) && i < |files|
    ensures x.decode(files[i].record).Some?
    ensures var r := x.decode(files[i].record).value;
            && r.passed && r.findings == []
            && r.ceremonyId == d.ceremonyId
            && r.subject.definition == candidate.subject.definition
            && r.subject.phase1Chain == candidate.subject.phase1Chain && r.subject.phase2Chain == candidate.subject.phase2Chain
            && r.subject.phase1SealId == candidate.subject.phase1SealId && r.subject.phase2SealId == candidate.subject.phase2SealId
            && r.subject.replayRoot == candidate.subject.replayRoot
            && r.outputs == candidate.outputs
            && candidate.finalizedAt < r.auditedAt
            && exists a <- d.auditors ::
                 a.id == r.auditorId && a.keyId == r.auditorKeyId && x.signed(files[i].record, files[i].signature, a)
    ensures RefsOf(OpenAudits(x, d, candidate, files).value)[i].digest == x.digest(files[i].record)
    ensures RefsOf(OpenAudits(x, d, candidate, files).value)[i].name ==
            if files[i].logicalName != "" then files[i].logicalName else files[i].baseName
  {
    hide OpenAudits;
    AuditBehind(x, d, candidate, files, i);
    FirstWithIdIsMember(d.auditors, x.decode(files[i].record).value.auditorId);
  }

  /** The auditors are different enrolled people: no two share an id, a key id or a public key. */
  lemma AuditorsAreUnrelated(
    o: Oracles, x: Reading, d: Definition, candidate: Candidate, files: seq<AuditFile>, i: nat, j: nat)
    returns (a: Identity, b: Identity)
    requires ValidDefinition(o, d) && AuditsHold(x, d, candidate, files) && i < j < |files|
    ensures a in d.auditors && x.signed(files[i].record, files[i].signature, a)
    ensures b in d.auditors && x.signed(files[j].record, files[j].signature, b)
    ensures Unrelated(a, b)
  {
    hide OpenAudits;
    AuditBehind(x, d, candidate, files, i);
    AuditBehind(x, d, candidate, files, j);
    var audits := OpenAudits(x, d, candidate, files).value;
    a, b := FirstWithId(d.auditors, audits[i].record.auditorId).value, FirstWithId(d.auditors, audits[j].record.auditorId).value;
    FirstWithIdIsMember(d.auditors, audits[i].record.auditorId);
    FirstWithIdIsMember(d.auditors, audits[j].record.auditorId);
    var p :| 0 <= p < |d.auditors| && d.auditors[p] == a;
    var q :| 0 <= q < |d.auditors| && d.auditors[q] == b;
    assert Actors(d)[2 + p] == a && Actors(d)[2 + q] == b;
    assert p < q ==> Unrelated(Actors(d)[2 + p], Actors(d)[2 + q]);
    assert q < p ==> Unrelated(Actors(d)[2 + q], Actors(d)[2 + p]);
  }
}
