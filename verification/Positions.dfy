/**
 Which byte of a binary artifact stands for what, by offset and without any list of fields: words are written out in
 their bytes, and a point is known by the range of its first byte.
 */
module Positions {
  import opened Common
  import opened Layout

  type Bytes = seq<Byte>

  predicate U16At(bytes: Bytes, at: nat, value: int) {
    at + 2 <= |bytes| && 0x100 * bytes[at] as int + bytes[at + 1] == value
  }

  predicate U32At(bytes: Bytes, at: nat, value: int) {
    && at + 4 <= |bytes|
    && 0x100_0000 * bytes[at] as int + 0x1_0000 * bytes[at + 1] as int + 0x100 * bytes[at + 2] as int + bytes[at + 3] == value
  }

  predicate U64At(bytes: Bytes, at: nat, value: int) {
    && at + 8 <= |bytes|
    && 0x100_0000_0000_0000 * bytes[at] as int + 0x1_0000_0000_0000 * bytes[at + 1] as int
       + 0x100_0000_0000 * bytes[at + 2] as int + 0x1_0000_0000 * bytes[at + 3] as int
       + 0x100_0000 * bytes[at + 4] as int + 0x1_0000 * bytes[at + 5] as int + 0x100 * bytes[at + 6] as int
       + bytes[at + 7] == value
  }

  /** A compressed point of `size` bytes whose three flag bits are 100, 101 or 110. */
  predicate PointAt(bytes: Bytes, at: nat, size: nat)
    requires size > 0
  {
    at + size <= |bytes| && 0x80 <= bytes[at] < 0xe0
  }

  predicate G1Run(bytes: Bytes, start: nat, count: nat) {
    start + 48 * count <= |bytes| && forall k: nat | k < count :: PointAt(bytes, start + 48 * k, 48)
  }

  predicate G2Run(bytes: Bytes, start: nat, count: nat) {
    start + 96 * count <= |bytes| && forall k: nat | k < count :: PointAt(bytes, start + 96 * k, 96)
  }

  /** Update proofs: a commitment in G1 and a proof of knowledge in G2 each. */
  predicate ProofRun(bytes: Bytes, start: nat, count: nat) {
    && start + 144 * count <= |bytes|
    && forall k: nat | k < count :: PointAt(bytes, start + 144 * k, 48) && PointAt(bytes, start + 144 * k + 48, 96)
  }

  predicate VectorAt(bytes: Bytes, at: nat, length: nat) {
    U32At(bytes, at, length) && G1Run(bytes, at + 4, length)
  }

  /** Beta in G2; then 2n-2 powers of Tau in G1, n-1 in G2, and n multiples each for Beta and Alpha in G1. */
  predicate CommonsAt(bytes: Bytes, start: nat, n: nat)
    requires n >= 1
  {
    && PointAt(bytes, start, 96)
    && G1Run(bytes, start + 96, 2 * n - 2)
    && G2Run(bytes, start + 96 * n, n - 1)
    && G1Run(bytes, start + 192 * n - 96, n)
    && G1Run(bytes, start + 240 * n - 96, n)
  }

  predicate CommonsBytes(bytes: Bytes, n: nat)
    requires n >= 1
  {
    |bytes| == 288 * n - 88 && U64At(bytes, 0, n) && CommonsAt(bytes, 8, n)
  }

  predicate Phase1Bytes(bytes: Bytes, n: nat, challengeLength: nat)
    requires n >= 1
  {
    && |bytes| == 288 * n + 345 + challengeLength
    && ProofRun(bytes, 0, 3)
    && U64At(bytes, 432, n)
    && CommonsAt(bytes, 440, n)
    && bytes[288 * n + 344] == challengeLength
  }

  /** The sum of the first `count` lengths. */
  function Total(lengths: seq<U32>, count: nat): nat
    requires count <= |lengths|
  {
    if count == 0 then 0 else Total(lengths, count - 1) + lengths[count - 1]
  }

  /** Length-prefixed vectors of the given lengths, each starting where the one before it ends. */
  predicate VectorsAt(bytes: Bytes, start: nat, lengths: seq<U32>, count: nat)
    requires count <= |lengths|
  {
    && start + 4 * count + 48 * Total(lengths, count) <= |bytes|
    && forall i | 0 <= i < count :: VectorAt(bytes, start + 4 * i + 48 * Total(lengths, i), lengths[i])
  }

  predicate Phase2Bytes(bytes: Bytes, commitments: nat, pkk: nat, z: nat, sigmaCKK: seq<U32>, challengeLength: nat) {
    var sigmas := 154 + 48 * (pkk + z);
    var sigmaG2 := sigmas + 4 * |sigmaCKK| + 48 * Total(sigmaCKK, |sigmaCKK|);
    var proofs := sigmaG2 + 96 * commitments;
    var challenge := proofs + 144 * (1 + commitments);
    && |bytes| == challenge + 1 + challengeLength
    && U16At(bytes, 0, commitments)
    && PointAt(bytes, 2, 48)
    && VectorAt(bytes, 50, pkk)
    && VectorAt(bytes, 54 + 48 * pkk, z)
    && PointAt(bytes, 58 + 48 * (pkk + z), 96)
    && VectorsAt(bytes, sigmas, sigmaCKK, |sigmaCKK|)
    && G2Run(bytes, sigmaG2, commitments)
    && ProofRun(bytes, proofs, 1 + commitments)
    && bytes[challenge] == challengeLength
  }

  // ----- From layouts to positions -----

  /** The fields stand one after the other from `start` on. */
  ghost predicate LaidOut(fields: seq<Field>, bytes: Bytes, start: nat) {
    if fields == [] then start <= |bytes|
    else
      var w := fields[0].Width();
      start + w <= |bytes| && fields[0].Accepts(bytes[start..start + w]) && LaidOut(fields[1..], bytes, start + w)
  }

  lemma {:induction false} LaidOutAppend(fs: seq<Field>, gs: seq<Field>, bytes: Bytes, start: nat)
    ensures LaidOut(fs + gs, bytes, start) <==> LaidOut(fs, bytes, start) && LaidOut(gs, bytes, start + Width(fs))
  {
    if fs == [] {
      assert fs + gs == gs;
      LaidOutFits(gs, bytes, start);
    } else {
      assert (fs + gs)[1..] == fs[1..] + gs;
      LaidOutAppend(fs[1..], gs, bytes, start + fs[0].Width());
    }
  }

  lemma {:induction false} LaidOutFits(fields: seq<Field>, bytes: Bytes, start: nat)
    ensures LaidOut(fields, bytes, start) ==> start + Width(fields) <= |bytes|
  {
    if fields != [] {
      LaidOutFits(fields[1..], bytes, start + fields[0].Width());
    }
  }

  lemma {:induction false} LayoutIsLaidOut(fields: seq<Field>, bytes: Bytes, start: nat)
    requires start <= |bytes|
    ensures IsLayout(fields, bytes[start..]) <==> LaidOut(fields, bytes, start) && start + Width(fields) == |bytes|
  {
    if fields != [] && start + Width(fields) == |bytes| {
      var w, rest := fields[0].Width(), bytes[start..];
      LayoutHeadTail(fields, rest);
      LayoutIsLaidOut(fields[1..], bytes, start + w);
      assert rest[..w] == bytes[start..start + w];
      assert rest[w..] == bytes[start + w..];
    }
  }

  lemma SlicesAreBigEndian(bytes: Bytes, at: nat, value: nat)
    ensures at + 1 <= |bytes| ==> (BigEndian(bytes[at..at + 1]) == value <==> bytes[at] == value)
    ensures at + 2 <= |bytes| ==> (BigEndian(bytes[at..at + 2]) == value <==> U16At(bytes, at, value))
    ensures at + 4 <= |bytes| ==> (BigEndian(bytes[at..at + 4]) == value <==> U32At(bytes, at, value))
    ensures at + 8 <= |bytes| ==> (BigEndian(bytes[at..at + 8]) == value <==> U64At(bytes, at, value))
  {
    hide BigEndian;
    BigEndianStep(bytes, at, 1);
    BigEndianStep(bytes, at, 2);
    BigEndianStep(bytes, at, 3);
    BigEndianStep(bytes, at, 4);
    BigEndianStep(bytes, at, 5);
    BigEndianStep(bytes, at, 6);
    BigEndianStep(bytes, at, 7);
    BigEndianStep(bytes, at, 8);
  }

  lemma BigEndianStep(bytes: Bytes, at: nat, width: nat)
    requires width > 0
    ensures at + width <= |bytes| ==>
              BigEndian(bytes[at..at + width]) ==
              (if width == 1 then 0 else 0x100 * BigEndian(bytes[at..at + (width - 1)])) + bytes[at + width - 1]
  {
    if at + width <= |bytes| {
      var slice := bytes[at..at + width];
      assert slice[..width - 1] == bytes[at..at + (width - 1)];
    }
  }

  /** A single number, point or free stretch. */
  lemma OneLaidOut(field: Field, bytes: Bytes, start: nat)
    ensures LaidOut([field], bytes, start) <==>
            start + field.Width() <= |bytes| && field.Accepts(bytes[start..start + field.Width()])
    ensures Width([field]) == field.Width()
  {
    assert [field][1..] == [];
  }

  lemma PointLaidOut(size: nat, bytes: Bytes, start: nat)
    requires size > 0
    ensures LaidOut([Point(size)], bytes, start) <==> PointAt(bytes, start, size)
  {
    OneLaidOut(Point(size), bytes, start);
    if start + size <= |bytes| {
      CanonicalHeadRange(bytes[start]);
    }
  }

  lemma {:induction false} G1RunLaidOut(bytes: Bytes, start: nat, count: nat)
    ensures LaidOut(Repeat(POINT_G1, count), bytes, start) <==> G1Run(bytes, start, count)
    ensures Width(Repeat(POINT_G1, count)) == 48 * count
  {
    RepeatWidth(POINT_G1, count);
    if count > 0 {
      G1RunLaidOut(bytes, start, count - 1);
      LaidOutAppend(Repeat(POINT_G1, count - 1), [POINT_G1], bytes, start);
      PointLaidOut(48, bytes, start + 48 * (count - 1));
      assert G1Run(bytes, start, count) <==> G1Run(bytes, start, count - 1) && PointAt(bytes, start + 48 * (count - 1), 48);
    }
  }

  lemma {:induction false} G2RunLaidOut(bytes: Bytes, start: nat, count: nat)
    ensures LaidOut(Repeat(POINT_G2, count), bytes, start) <==> G2Run(bytes, start, count)
    ensures Width(Repeat(POINT_G2, count)) == 96 * count
  {
    RepeatWidth(POINT_G2, count);
    if count > 0 {
      G2RunLaidOut(bytes, start, count - 1);
      LaidOutAppend(Repeat(POINT_G2, count - 1), [POINT_G2], bytes, start);
      PointLaidOut(96, bytes, start + 96 * (count - 1));
      assert G2Run(bytes, start, count) <==> G2Run(bytes, start, count - 1) && PointAt(bytes, start + 96 * (count - 1), 96);
    }
  }

  lemma UpdateProofLaidOut(bytes: Bytes, start: nat)
    ensures LaidOut(UPDATE_PROOF, bytes, start) <==> PointAt(bytes, start, 48) && PointAt(bytes, start + 48, 96)
    ensures Width(UPDATE_PROOF) == 144
  {
    assert UPDATE_PROOF == [POINT_G1] + [POINT_G2];
    LaidOutAppend([POINT_G1], [POINT_G2], bytes, start);
    OneLaidOut(POINT_G1, bytes, start);
    PointLaidOut(48, bytes, start);
    PointLaidOut(96, bytes, start + 48);
    PairWidth(POINT_G1, POINT_G2);
  }

  lemma {:induction false} ProofRunLaidOut(bytes: Bytes, start: nat, count: nat)
    ensures LaidOut(UpdateProofs(count), bytes, start) <==> ProofRun(bytes, start, count)
    ensures Width(UpdateProofs(count)) == 144 * count
  {
    UpdateProofsWidth(count);
    if count > 0 {
      ProofRunLaidOut(bytes, start, count - 1);
      LaidOutAppend(UpdateProofs(count - 1), UPDATE_PROOF, bytes, start);
      UpdateProofLaidOut(bytes, start + 144 * (count - 1));
      ProofRunStep(bytes, start, count);
    }
  }

  lemma ProofRunStep(bytes: Bytes, start: nat, count: nat)
    requires count > 0
    ensures var at := start + 144 * (count - 1);
            ProofRun(bytes, start, count) <==>
            ProofRun(bytes, start, count - 1) && PointAt(bytes, at, 48) && PointAt(bytes, at + 48, 96)
  {
  }

  /** One proof and then `count` more are a run of one more. */
  lemma ProofRunFront(bytes: Bytes, start: nat, count: nat)
    ensures ProofRun(bytes, start, 1 + count) <==>
            PointAt(bytes, start, 48) && PointAt(bytes, start + 48, 96) && ProofRun(bytes, start + 144, count)
  {
    if ProofRun(bytes, start, 1 + count) {
      assert PointAt(bytes, start + 144 * 0, 48);
      forall k: nat | k < count
        ensures PointAt(bytes, start + 144 + 144 * k, 48) && PointAt(bytes, start + 144 + 144 * k + 48, 96)
      {
        assert start + 144 + 144 * k == start + 144 * (k + 1);
        assert PointAt(bytes, start + 144 * (k + 1), 48);
      }
    }
    if PointAt(bytes, start, 48) && PointAt(bytes, start + 48, 96) && ProofRun(bytes, start + 144, count) {
      forall k: nat | k < 1 + count
        ensures PointAt(bytes, start + 144 * k, 48) && PointAt(bytes, start + 144 * k + 48, 96)
      {
        if k > 0 {
          assert start + 144 + 144 * (k - 1) == start + 144 * k;
          assert PointAt(bytes, start + 144 + 144 * (k - 1), 48);
        }
      }
    }
  }

  lemma VectorLaidOut(bytes: Bytes, start: nat, length: U32)
    ensures LaidOut(VectorG1(length), bytes, start) <==> VectorAt(bytes, start, length)
    ensures Width(VectorG1(length)) == 4 + 48 * length
  {
    hide G1Run;
    VectorWidth(length);
    LaidOutAppend([Number(4, length)], Repeat(POINT_G1, length), bytes, start);
    OneLaidOut(Number(4, length), bytes, start);
    SlicesAreBigEndian(bytes, start, length);
    G1RunLaidOut(bytes, start + 4, length);
  }

  lemma {:induction false} VectorsLaidOut(bytes: Bytes, start: nat, lengths: seq<U32>, count: nat)
    requires count <= |lengths|
    ensures Width(VectorsG1(lengths[..count])) == 4 * count + 48 * Total(lengths, count)
    ensures LaidOut(VectorsG1(lengths[..count]), bytes, start) <==> VectorsAt(bytes, start, lengths, count)
  {
    hide VectorG1, VectorAt, VectorsAt;
    if count > 0 {
      var front, last := lengths[..count - 1], lengths[count - 1];
      var at := start + 4 * (count - 1) + 48 * Total(lengths, count - 1);
      VectorsLaidOut(bytes, start, lengths, count - 1);
      assert lengths[..count][..count - 1] == front;
      assert VectorsG1(lengths[..count]) == VectorsG1(front) + VectorG1(last);
      LaidOutAppend(VectorsG1(front), VectorG1(last), bytes, start);
      WidthAppend(VectorsG1(front), VectorG1(last));
      VectorLaidOut(bytes, at, last);
      VectorsAtStep(bytes, start, lengths, count);
    } else {
      assert lengths[..0] == [];
      NoVectors(bytes, start, lengths);
    }
  }

  lemma NoVectors(bytes: Bytes, start: nat, lengths: seq<U32>)
    ensures VectorsAt(bytes, start, lengths, 0) <==> start <= |bytes|
  {
  }

  lemma VectorsAtStep(bytes: Bytes, start: nat, lengths: seq<U32>, count: nat)
    requires 0 < count <= |lengths|
    ensures VectorsAt(bytes, start, lengths, count) <==>
            && VectorsAt(bytes, start, lengths, count - 1)
            && VectorAt(bytes, start + 4 * (count - 1) + 48 * Total(lengths, count - 1), lengths[count - 1])
  {
    hide VectorAt, Total;
    var at := start + 4 * (count - 1) + 48 * Total(lengths, count - 1);
    TotalStep(lengths, count);
    VectorFits(bytes, at, lengths[count - 1]);
  }

  lemma TotalStep(lengths: seq<U32>, count: nat)
    requires 0 < count <= |lengths|
    ensures Total(lengths, count) == Total(lengths, count - 1) + lengths[count - 1]
  {
  }

  lemma VectorFits(bytes: Bytes, at: nat, length: nat)
    ensures VectorAt(bytes, at, length) ==> at + 4 + 48 * length <= |bytes|
  {
  }

  lemma ChallengeLaidOut(bytes: Bytes, start: nat, length: U8)
    ensures LaidOut(ChallengeFields(length), bytes, start) <==> start + 1 + length <= |bytes| && bytes[start] == length
    ensures Width(ChallengeFields(length)) == 1 + length
  {
    ChallengeWidth(length);
    assert ChallengeFields(length) == [Number(1, length)] + [Raw(length)];
    LaidOutAppend([Number(1, length)], [Raw(length)], bytes, start);
    OneLaidOut(Number(1, length), bytes, start);
    OneLaidOut(Raw(length), bytes, start + 1);
    SlicesAreBigEndian(bytes, start, length);
  }

  lemma CommonsLaidOut(bytes: Bytes, start: nat, n: nat)
    requires n >= 1
    ensures LaidOut(CommonsBody(n), bytes, start) <==> CommonsAt(bytes, start, n)
    ensures Width(CommonsBody(n)) == 288 * n - 96
  {
    hide G1Run, G2Run, LaidOut, Repeat, PointAt;
    var a := [POINT_G2];
    var b := a + Repeat(POINT_G1, 2 * n - 2);
    var c := b + Repeat(POINT_G2, n - 1);
    var d := c + Repeat(POINT_G1, n);
    CommonsBodyWidth(n);
    LaidOutAppend(d, Repeat(POINT_G1, n), bytes, start);
    LaidOutAppend(c, Repeat(POINT_G1, n), bytes, start);
    LaidOutAppend(b, Repeat(POINT_G2, n - 1), bytes, start);
    LaidOutAppend(a, Repeat(POINT_G1, 2 * n - 2), bytes, start);
    WidthAppend(c, Repeat(POINT_G1, n));
    WidthAppend(b, Repeat(POINT_G2, n - 1));
    WidthAppend(a, Repeat(POINT_G1, 2 * n - 2));
    OneLaidOut(POINT_G2, bytes, start);
    PointLaidOut(96, bytes, start);
    G1RunLaidOut(bytes, start + 96, 2 * n - 2);
    G2RunLaidOut(bytes, start + 96 * n, n - 1);
    G1RunLaidOut(bytes, start + 192 * n - 96, n);
    G1RunLaidOut(bytes, start + 240 * n - 96, n);
  }

  /** `gs` after `fs`, as one fact about the place where `gs` starts. */
  lemma Then(fs: seq<Field>, gs: seq<Field>, bytes: Bytes, at: nat)
    requires Width(fs) == at
    ensures LaidOut(fs + gs, bytes, 0) <==> LaidOut(fs, bytes, 0) && LaidOut(gs, bytes, at)
    ensures Width(fs + gs) == at + Width(gs)
  {
    LaidOutAppend(fs, gs, bytes, 0);
    WidthAppend(fs, gs);
  }

  /** The commons layout, byte by byte. */
  lemma CommonsPositions(s: CommonsShape, bytes: Bytes)
    requires s.domainN >= 1
    ensures IsLayout(CommonsFields(s), bytes) <==> CommonsBytes(bytes, s.domainN)
  {
    hide CommonsBody, CommonsAt, LaidOut;
    assert bytes[0..] == bytes;
    LayoutIsLaidOut(CommonsFields(s), bytes, 0);
    LaidOutAppend([Number(8, s.domainN)], CommonsBody(s.domainN), bytes, 0);
    OneLaidOut(Number(8, s.domainN), bytes, 0);
    SlicesAreBigEndian(bytes, 0, s.domainN);
    CommonsLaidOut(bytes, 8, s.domainN);
    CommonsWidth(s);
  }

  /** The Phase 1 layout, byte by byte. */
  lemma Phase1Positions(s: Phase1Shape, bytes: Bytes)
    requires s.domainN >= 1
    ensures IsLayout(Phase1Fields(s), bytes) <==> Phase1Bytes(bytes, s.domainN, s.challengeLength)
  {
    hide CommonsBody, CommonsAt, LaidOut, UpdateProofs, ProofRun, ChallengeFields, U64At, Width, IsLayout;
    var a := UpdateProofs(3);
    var b := a + [Number(8, s.domainN)];
    var c := b + CommonsBody(s.domainN);
    var challenge := 288 * s.domainN + 344;
    assert bytes[0..] == bytes;
    LayoutIsLaidOut(Phase1Fields(s), bytes, 0);
    ProofRunLaidOut(bytes, 0, 3);
    OneLaidOut(Number(8, s.domainN), bytes, 432);
    SlicesAreBigEndian(bytes, 432, s.domainN);
    Then(a, [Number(8, s.domainN)], bytes, 432);
    CommonsLaidOut(bytes, 440, s.domainN);
    Then(b, CommonsBody(s.domainN), bytes, 440);
    ChallengeLaidOut(bytes, challenge, s.challengeLength);
    Then(c, ChallengeFields(s.challengeLength), bytes, challenge);
  }

  lemma Phase2HeadLaidOut(bytes: Bytes, commitments: U16)
    ensures var head := [Number(2, commitments), POINT_G1];
            && (LaidOut(head, bytes, 0) <==> U16At(bytes, 0, commitments) && PointAt(bytes, 2, 48))
            && Width(head) == 50
  {
    assert [Number(2, commitments), POINT_G1] == [Number(2, commitments)] + [POINT_G1];
    LaidOutAppend([Number(2, commitments)], [POINT_G1], bytes, 0);
    OneLaidOut(Number(2, commitments), bytes, 0);
    SlicesAreBigEndian(bytes, 0, commitments);
    PointLaidOut(48, bytes, 2);
    PairWidth(Number(2, commitments), POINT_G1);
  }

  /** Commitments and Delta in G1, PKK, and Z. */
  lemma Phase2VectorsLaidOut(s: Phase2Shape, bytes: Bytes)
    ensures var fields := [Number(2, s.commitments), POINT_G1] + VectorG1(s.pkk) + VectorG1(s.z);
            && Width(fields) == 58 + 48 * (s.pkk + s.z)
            && (LaidOut(fields, bytes, 0) <==>
                  && U16At(bytes, 0, s.commitments) && PointAt(bytes, 2, 48)
                  && VectorAt(bytes, 50, s.pkk) && VectorAt(bytes, 54 + 48 * s.pkk, s.z))
  {
    hide LaidOut, VectorG1, VectorAt, U16At, PointAt, Width;
    var a := [Number(2, s.commitments), POINT_G1];
    Phase2HeadLaidOut(bytes, s.commitments);
    VectorLaidOut(bytes, 50, s.pkk);
    Then(a, VectorG1(s.pkk), bytes, 50);
    VectorLaidOut(bytes, 54 + 48 * s.pkk, s.z);
    Then(a + VectorG1(s.pkk), VectorG1(s.z), bytes, 54 + 48 * s.pkk);
  }

  /** Then Delta in G2 and the commitment bases. */
  lemma Phase2ParametersLaidOut(s: Phase2Shape, bytes: Bytes)
    ensures var fields, sigmas := Phase2ParameterFields(s), 154 + 48 * (s.pkk + s.z);
            && Width(fields) == sigmas + 4 * |s.sigmaCKK| + 48 * Total(s.sigmaCKK, |s.sigmaCKK|)
            && (LaidOut(fields, bytes, 0) <==>
                  && U16At(bytes, 0, s.commitments) && PointAt(bytes, 2, 48)
                  && VectorAt(bytes, 50, s.pkk) && VectorAt(bytes, 54 + 48 * s.pkk, s.z)
                  && PointAt(bytes, 58 + 48 * (s.pkk + s.z), 96)
                  && VectorsAt(bytes, sigmas, s.sigmaCKK, |s.sigmaCKK|))
  {
    hide LaidOut, VectorG1, VectorsG1, VectorAt, VectorsAt, U16At, PointAt, Width;
    var c := [Number(2, s.commitments), POINT_G1] + VectorG1(s.pkk) + VectorG1(s.z);
    var at := 58 + 48 * (s.pkk + s.z);
    Phase2VectorsLaidOut(s, bytes);
    DeltaLaidOut(bytes, at);
    Then(c, [POINT_G2], bytes, at);
    VectorsLaidOut(bytes, at + 96, s.sigmaCKK, |s.sigmaCKK|);
    assert s.sigmaCKK[..|s.sigmaCKK|] == s.sigmaCKK;
    Then(c + [POINT_G2], VectorsG1(s.sigmaCKK), bytes, at + 96);
  }

  lemma DeltaLaidOut(bytes: Bytes, at: nat)
    ensures LaidOut([POINT_G2], bytes, at) <==> PointAt(bytes, at, 96)
    ensures Width([POINT_G2]) == 96
  {
    OneLaidOut(POINT_G2, bytes, at);
    PointLaidOut(96, bytes, at);
  }

  /** The Phase 2 layout, byte by byte. */
  lemma Phase2Positions(s: Phase2Shape, bytes: Bytes)
    ensures IsLayout(Phase2Fields(s), bytes) <==>
            Phase2Bytes(bytes, s.commitments, s.pkk, s.z, s.sigmaCKK, s.challengeLength)
  {
    hide LaidOut, Phase2ParameterFields, VectorAt, VectorsAt, U16At, PointAt, G2Run, ProofRun, UpdateProofs, Repeat,
      ChallengeFields, Width, IsLayout;
    var a := Phase2ParameterFields(s);
    var b := a + Repeat(POINT_G2, s.commitments);
    var c := b + UPDATE_PROOF;
    var d := c + UpdateProofs(s.commitments);
    var sigmaG2 := Width(a);
    var proofs := sigmaG2 + 96 * s.commitments;
    var challenge := proofs + 144 * (1 + s.commitments);
    assert bytes[0..] == bytes;
    LayoutIsLaidOut(Phase2Fields(s), bytes, 0);
    Phase2ParametersLaidOut(s, bytes);
    G2RunLaidOut(bytes, sigmaG2, s.commitments);
    Then(a, Repeat(POINT_G2, s.commitments), bytes, sigmaG2);
    UpdateProofLaidOut(bytes, proofs);
    Then(b, UPDATE_PROOF, bytes, proofs);
    ProofRunLaidOut(bytes, proofs + 144, s.commitments);
    Then(c, UpdateProofs(s.commitments), bytes, proofs + 144);
    ProofRunFront(bytes, proofs, s.commitments);
    ChallengeLaidOut(bytes, challenge, s.challengeLength);
    Then(d, ChallengeFields(s.challengeLength), bytes, challenge);
  }
}
