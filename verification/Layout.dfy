/** Field-by-field layouts of the binary ceremony artifacts, independent of any scanner. */
module Layout {
  import opened Common
  import Bits

  const G1_SIZE := 48
  const G2_SIZE := 96

  /** One field: a big-endian number with a fixed value, a compressed curve point, or free bytes. */
  datatype Field = Number(width: nat, value: nat) | Point(size: nat) | Raw(length: nat) {
    function Width(): nat {
      match this
      case Number(width, _) => width
      case Point(size) => size
      case Raw(length) => length
    }

    predicate Accepts(bytes: seq<Byte>)
      requires |bytes| == Width()
    {
      match this
      case Number(_, value) => BigEndian(bytes) == value
      case Point(size) => size > 0 && CanonicalHead(bytes[0])
      case Raw(_) => true
    }
  }

  function BigEndian(bytes: seq<Byte>): nat {
    if bytes == [] then 0
    else 256 * BigEndian(bytes[..|bytes| - 1]) + bytes[|bytes| - 1]
  }

  /** The three flag patterns of a compressed BLS12-381 point. */
  predicate CanonicalHead(b: Byte) {
    Bits.And(b, 0xe0) in {0x80, 0xa0, 0xc0}
  }

  /** The top three bits are 100, 101 or 110: the byte lies in [0x80, 0xe0). */
  lemma CanonicalHeadRange(b: Byte)
    ensures CanonicalHead(b) <==> 0x80 <= b < 0xe0
  {
    hide Bits.And;
    Bits.TopThreeBits(b);
  }

  function Width(fields: seq<Field>): nat {
    if fields == [] then 0 else fields[0].Width() + Width(fields[1..])
  }

  /** Where field `i` starts. */
  function Offset(fields: seq<Field>, i: nat): nat
    requires i <= |fields|
  {
    Width(fields[..i])
  }

  lemma {:induction false} WidthAppend(fs: seq<Field>, gs: seq<Field>)
    ensures Width(fs + gs) == Width(fs) + Width(gs)
  {
    if fs == [] {
      assert fs + gs == gs;
    } else {
      WidthAppend(fs[1..], gs);
      assert (fs + gs)[1..] == fs[1..] + gs;
    }
  }

  lemma PairWidth(f: Field, g: Field)
    ensures Width([f, g]) == f.Width() + g.Width()
  {
    assert [f, g][1..] == [g];
    assert Width([g]) == g.Width();
  }

  lemma OffsetStep(fields: seq<Field>, i: nat)
    requires i < |fields|
    ensures Offset(fields, i + 1) == Offset(fields, i) + fields[i].Width() <= Width(fields)
  {
    assert fields[..i + 1] == fields[..i] + [fields[i]];
    assert fields == fields[..i + 1] + fields[i + 1..];
    WidthAppend(fields[..i], [fields[i]]);
    WidthAppend(fields[..i + 1], fields[i + 1..]);
  }

  /** The part of `bytes` that field `i` occupies. */
  function Slice(fields: seq<Field>, bytes: seq<Byte>, i: nat): (part: seq<Byte>)
    requires i < |fields| && |bytes| == Width(fields)
    ensures |part| == fields[i].Width()
  {
    OffsetStep(fields, i);
    bytes[Offset(fields, i)..Offset(fields, i) + fields[i].Width()]
  }

  /** `bytes` is exactly these fields, one after the other, with nothing left over. */
  ghost predicate IsLayout(fields: seq<Field>, bytes: seq<Byte>) {
    && |bytes| == Width(fields)
    && forall i | 0 <= i < |fields| :: fields[i].Accepts(Slice(fields, bytes, i))
  }

  lemma LayoutHeadTail(fields: seq<Field>, bytes: seq<Byte>)
    requires fields != [] && |bytes| == Width(fields)
    ensures var w := fields[0].Width();
            IsLayout(fields, bytes) <==> fields[0].Accepts(bytes[..w]) && IsLayout(fields[1..], bytes[w..])
  {
    var w, tail, rest := fields[0].Width(), fields[1..], bytes[fields[0].Width()..];
    assert Slice(fields, bytes, 0) == bytes[..w];
    forall i | 0 <= i < |tail| ensures Slice(tail, rest, i) == Slice(fields, bytes, i + 1) {
      assert fields[..i + 1] == [fields[0]] + tail[..i];
      WidthAppend([fields[0]], tail[..i]);
      assert Width([fields[0]]) == w;
      assert Offset(fields, i + 1) == w + Offset(tail, i);
      OffsetStep(tail, i);
    }
    if fields[0].Accepts(bytes[..w]) && IsLayout(tail, rest) {
      forall i | 0 <= i < |fields| ensures fields[i].Accepts(Slice(fields, bytes, i)) {
        if i > 0 {
          assert tail[i - 1].Accepts(Slice(tail, rest, i - 1));
        }
      }
    }
    if IsLayout(fields, bytes) {
      forall i | 0 <= i < |tail| ensures tail[i].Accepts(Slice(tail, rest, i)) {
        assert fields[i + 1].Accepts(Slice(fields, bytes, i + 1));
      }
      assert fields[0].Accepts(Slice(fields, bytes, 0));
    }
  }

  function Repeat(field: Field, count: nat): seq<Field> {
    if count == 0 then [] else Repeat(field, count - 1) + [field]
  }

  lemma {:induction false} RepeatWidth(field: Field, count: nat)
    ensures |Repeat(field, count)| == count
    ensures Width(Repeat(field, count)) == count * field.Width()
  {
    if count > 0 {
      RepeatWidth(field, count - 1);
      WidthAppend(Repeat(field, count - 1), [field]);
      assert Width([field]) == field.Width();
      assert count * field.Width() == (count - 1) * field.Width() + field.Width();
    }
  }

  // ----- The three artifacts -----

  datatype Phase1Shape = Phase1Shape(domainN: U64, challengeLength: U8)
  datatype CommonsShape = CommonsShape(domainN: U64)
  datatype Phase2Shape = Phase2Shape(
    commitments: U16, pkk: U32, z: U32, sigmaCKK: seq<U32>, challengeLength: U8)

  const POINT_G1: Field := Point(G1_SIZE)
  const POINT_G2: Field := Point(G2_SIZE)
  const UPDATE_PROOF: seq<Field> := [POINT_G1, POINT_G2]

  function UpdateProofs(count: nat): seq<Field> {
    if count == 0 then [] else UpdateProofs(count - 1) + UPDATE_PROOF
  }

  function ChallengeFields(length: U8): seq<Field> {
    [Number(1, length), Raw(length)]
  }

  function VectorG1(length: U32): seq<Field> {
    [Number(4, length)] + Repeat(POINT_G1, length)
  }

  function VectorsG1(lengths: seq<U32>): seq<Field> {
    if lengths == [] then []
    else VectorsG1(lengths[..|lengths| - 1]) + VectorG1(lengths[|lengths| - 1])
  }

  /** Beta in G2, then Tau in G1 and G2, BetaTau and AlphaTau. */
  function CommonsBody(n: nat): seq<Field>
    requires n >= 1
  {
    [POINT_G2] + Repeat(POINT_G1, 2 * n - 2) + Repeat(POINT_G2, n - 1) + Repeat(POINT_G1, n) + Repeat(POINT_G1, n)
  }

  function CommonsFields(s: CommonsShape): seq<Field>
    requires s.domainN >= 1
  {
    [Number(8, s.domainN)] + CommonsBody(s.domainN)
  }

  function Phase1Fields(s: Phase1Shape): seq<Field>
    requires s.domainN >= 1
  {
    UpdateProofs(3) + [Number(8, s.domainN)] + CommonsBody(s.domainN) + ChallengeFields(s.challengeLength)
  }

  function Phase2ParameterFields(s: Phase2Shape): seq<Field> {
    [Number(2, s.commitments), POINT_G1] + VectorG1(s.pkk) + VectorG1(s.z) + [POINT_G2] + VectorsG1(s.sigmaCKK)
  }

  function Phase2Fields(s: Phase2Shape): seq<Field> {
    Phase2ParameterFields(s) + Repeat(POINT_G2, s.commitments)
    + UPDATE_PROOF + UpdateProofs(s.commitments) + ChallengeFields(s.challengeLength)
  }

  function Sum(lengths: seq<U32>): nat {
    if lengths == [] then 0 else Sum(lengths[..|lengths| - 1]) + lengths[|lengths| - 1]
  }

  lemma {:induction false} UpdateProofsWidth(count: nat)
    ensures Width(UpdateProofs(count)) == 144 * count
  {
    PairWidth(POINT_G1, POINT_G2);
    if count > 0 {
      UpdateProofsWidth(count - 1);
      WidthAppend(UpdateProofs(count - 1), UPDATE_PROOF);
    }
  }

  lemma ChallengeWidth(length: U8)
    ensures Width(ChallengeFields(length)) == 1 + length
  {
    PairWidth(Number(1, length), Raw(length));
  }

  lemma VectorWidth(length: U32)
    ensures Width(VectorG1(length)) == 4 + 48 * length
  {
    RepeatWidth(POINT_G1, length);
    WidthAppend([Number(4, length)], Repeat(POINT_G1, length));
    assert Width([Number(4, length)]) == 4;
  }

  lemma {:induction false} VectorsWidth(lengths: seq<U32>)
    ensures Width(VectorsG1(lengths)) == 4 * |lengths| + 48 * Sum(lengths)
  {
    if lengths != [] {
      var front, last := lengths[..|lengths| - 1], lengths[|lengths| - 1];
      VectorsWidth(front);
      VectorWidth(last);
      WidthAppend(VectorsG1(front), VectorG1(last));
    }
  }

  lemma CommonsBodyWidth(n: nat)
    requires n >= 1
    ensures Width(CommonsBody(n)) == 288 * n - 96
  {
    RepeatWidth(POINT_G1, 2 * n - 2);
    RepeatWidth(POINT_G2, n - 1);
    RepeatWidth(POINT_G1, n);
    var a := [POINT_G2];
    var b := a + Repeat(POINT_G1, 2 * n - 2);
    var c := b + Repeat(POINT_G2, n - 1);
    var d := c + Repeat(POINT_G1, n);
    assert Width(a) == 96;
    WidthAppend(a, Repeat(POINT_G1, 2 * n - 2));
    WidthAppend(b, Repeat(POINT_G2, n - 1));
    WidthAppend(c, Repeat(POINT_G1, n));
    WidthAppend(d, Repeat(POINT_G1, n));
  }

  /** The closed forms 288N-88, 288N-88+432+1+c and 48*points+299+c+244*commitments. */
  lemma ClosedForms(c: CommonsShape, p: Phase1Shape, q: Phase2Shape)
    requires c.domainN >= 1 && p.domainN >= 1
    ensures Width(CommonsFields(c)) == 288 * c.domainN - 88
    ensures Width(Phase1Fields(p)) == 288 * p.domainN - 88 + 432 + 1 + p.challengeLength
    ensures |q.sigmaCKK| == q.commitments ==>
              Width(Phase2Fields(q)) ==
              48 * (q.pkk + q.z + Sum(q.sigmaCKK)) + 299 + q.challengeLength + 244 * q.commitments
  {
    CommonsWidth(c);
    Phase1Width(p);
    Phase2Width(q);
  }

  lemma CommonsWidth(s: CommonsShape)
    requires s.domainN >= 1
    ensures Width(CommonsFields(s)) == 288 * s.domainN - 88
  {
    CommonsBodyWidth(s.domainN);
    assert Width([Number(8, s.domainN)]) == 8;
    WidthAppend([Number(8, s.domainN)], CommonsBody(s.domainN));
  }

  lemma Phase1Width(s: Phase1Shape)
    requires s.domainN >= 1
    ensures Width(Phase1Fields(s)) == 288 * s.domainN - 88 + 432 + 1 + s.challengeLength
  {
    var a := UpdateProofs(3);
    var b := a + [Number(8, s.domainN)];
    var c := b + CommonsBody(s.domainN);
    UpdateProofsWidth(3);
    CommonsBodyWidth(s.domainN);
    ChallengeWidth(s.challengeLength);
    assert Width([Number(8, s.domainN)]) == 8;
    WidthAppend(a, [Number(8, s.domainN)]);
    WidthAppend(b, CommonsBody(s.domainN));
    WidthAppend(c, ChallengeFields(s.challengeLength));
  }

  lemma Phase2Width(s: Phase2Shape)
    ensures Width(Phase2Fields(s)) ==
            48 * (s.pkk + s.z + Sum(s.sigmaCKK)) + 299 + s.challengeLength + 4 * |s.sigmaCKK| + 240 * s.commitments
  {
    hide Repeat, VectorG1, VectorsG1, UpdateProofs, ChallengeFields;
    var a := [Number(2, s.commitments), POINT_G1];
    var b := a + VectorG1(s.pkk);
    var c := b + VectorG1(s.z);
    var d := c + [POINT_G2];
    var e := d + VectorsG1(s.sigmaCKK);
    var f := e + Repeat(POINT_G2, s.commitments);
    var g := f + UPDATE_PROOF;
    var h := g + UpdateProofs(s.commitments);
    PairWidth(Number(2, s.commitments), POINT_G1);
    VectorWidth(s.pkk);
    VectorWidth(s.z);
    VectorsWidth(s.sigmaCKK);
    RepeatWidth(POINT_G2, s.commitments);
    PairWidth(POINT_G1, POINT_G2);
    UpdateProofsWidth(s.commitments);
    ChallengeWidth(s.challengeLength);
    assert Width([POINT_G2]) == 96;
    WidthAppend(a, VectorG1(s.pkk));
    WidthAppend(b, VectorG1(s.z));
    WidthAppend(c, [POINT_G2]);
    WidthAppend(d, VectorsG1(s.sigmaCKK));
    WidthAppend(e, Repeat(POINT_G2, s.commitments));
    WidthAppend(f, UPDATE_PROOF);
    WidthAppend(g, UpdateProofs(s.commitments));
    WidthAppend(h, ChallengeFields(s.challengeLength));
  }
}
