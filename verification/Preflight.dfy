/**
 The preflight scanner: exact expected sizes with checked 64-bit arithmetic, and a single pass
 over the artifact through a read-ahead buffer, with both digests fed on the far side of that buffer.
 */
module Preflight {
  import opened Common
  import opened Layout
  import Bits
  import Positions

  const MAX_DOMAIN_N: U64 := 0x1_0000_0000
  const MAX_PHASE2_COMMITMENTS: U16 := 255
  const MAX_ARTIFACT_SIZE: U64 := 0x4_0000_0000
  const PREFLIGHT_BUFFER := 0x10_0000

  /** `ExceedsExpected` and `SizeMismatch` are the length guards of ReadFull and Finish. */
  datatype Fault =
    | InvalidShape | Overflow | TooLarge | NonCanonicalPoint | TrailingData
    | ExceedsExpected | SizeMismatch | EndOfInput | UnexpectedEnd | ReadFailure

  // ----- Expected sizes -----

  function CheckedAdd(a: U64, b: U64): Result<U64, Fault> {
    if (a + b) / TWO_TO_THE_64 != 0 then Err(Overflow) else Ok((a + b) % TWO_TO_THE_64)
  }

  function CheckedMul(a: U64, b: U64): Result<U64, Fault> {
    if (a * b) / TWO_TO_THE_64 != 0 then Err(Overflow) else Ok((a * b) % TWO_TO_THE_64)
  }

  function CheckedSub(a: U64, b: U64): Result<U64, Fault> {
    if b > a then Err(Overflow) else Ok(a - b)
  }

  function CheckedArtifactSize(n: U64): Result<U64, Fault> {
    if n >= TWO_TO_THE_63 then Err(Overflow)
    else if n > MAX_ARTIFACT_SIZE then Err(TooLarge)
    else Ok(n)
  }

  predicate ValidDomain(n: U64) {
    !(n < 2 || n > MAX_DOMAIN_N || Bits.And(n, n - 1) != 0)
  }

  function ExpectedCommonsSize(s: CommonsShape): Result<U64, Fault> {
    if !ValidDomain(s.domainN) then Err(InvalidShape)
    else
      var product :- CheckedMul(s.domainN, 288);
      var size :- CheckedSub(product, 88);
      CheckedArtifactSize(size)
  }

  function ExpectedPhase1Size(s: Phase1Shape): Result<U64, Fault> {
    var commons :- ExpectedCommonsSize(CommonsShape(s.domainN));
    var withProofs :- CheckedAdd(commons, 3 * (G1_SIZE + G2_SIZE));
    var size :- CheckedAdd(withProofs, 1 + s.challengeLength);
    CheckedArtifactSize(size)
  }

  /** What ExpectedPhase2Size computes, by the layout alone. */
  function Phase2Size(s: Phase2Shape): Result<U64, Fault> {
    if s.commitments > MAX_PHASE2_COMMITMENTS || |s.sigmaCKK| != s.commitments then Err(InvalidShape)
    else if Width(Phase2Fields(s)) > MAX_ARTIFACT_SIZE then Err(TooLarge)
    else Ok(Width(Phase2Fields(s)))
  }

  method ExpectedPhase2Size(s: Phase2Shape) returns (size: Result<U64, Fault>)
    ensures size == Phase2Size(s)
  {
    hide Width, Phase2Fields;
    if s.commitments > MAX_PHASE2_COMMITMENTS {
      return Err(InvalidShape);
    }
    if |s.sigmaCKK| != s.commitments {
      return Err(InvalidShape);
    }
    Phase2Width(s);
    var totalPoints: U64 := s.pkk + s.z;
    for i := 0 to |s.sigmaCKK|
      invariant totalPoints == s.pkk + s.z + Sum(s.sigmaCKK[..i])
      invariant totalPoints <= (i + 2) * 0x1_0000_0000
    {
      assert s.sigmaCKK[..i + 1][..i] == s.sigmaCKK[..i];
      var sum := CheckedAdd(totalPoints, s.sigmaCKK[i]);
      if sum.Err? {
        return Err(Overflow);
      }
      totalPoints := sum.value;
    }
    assert s.sigmaCKK[..|s.sigmaCKK|] == s.sigmaCKK;
    var points := CheckedMul(totalPoints, G1_SIZE);
    if points.Err? {
      return Err(Overflow);
    }
    var fixed := CheckedAdd(points.value, 299 + s.challengeLength);
    if fixed.Err? {
      return Err(Overflow);
    }
    var perCommitment := CheckedMul(s.commitments, 244);
    if perCommitment.Err? {
      return Err(Overflow);
    }
    var total := CheckedAdd(fixed.value, perCommitment.value);
    if total.Err? {
      return Err(Overflow);
    }
    size := CheckedArtifactSize(total.value);
  }

  /** The declared sizes are the layouts' widths; overflow is never the reason for a refusal. */
  lemma ExpectedSizesAreWidths(c: CommonsShape, p: Phase1Shape)
    ensures ExpectedCommonsSize(c) != Err(Overflow) && ExpectedPhase1Size(p) != Err(Overflow)
    ensures ExpectedCommonsSize(c).Ok? ==>
              c.domainN >= 1 && ExpectedCommonsSize(c).value == Width(CommonsFields(c))
    ensures ExpectedPhase1Size(p).Ok? ==>
              p.domainN >= 1 && ExpectedPhase1Size(p).value == Width(Phase1Fields(p))
  {
    if ValidDomain(c.domainN) {
      CommonsWidth(c);
    }
    if ValidDomain(p.domainN) {
      Phase1Width(p);
    }
  }

  /** A domain is accepted exactly for N = 2^k with 1 <= k <= 25: the 16 GiB cap binds, not the declared 2^32. */
  lemma AcceptedDomains(n: U64, challengeLength: U8)
    ensures ExpectedCommonsSize(CommonsShape(n)).Ok? <==> exists k: nat :: 1 <= k <= 25 && n == Bits.Pow2(k)
    ensures ExpectedPhase1Size(Phase1Shape(n, challengeLength)).Ok? <==> ExpectedCommonsSize(CommonsShape(n)).Ok?
    ensures ValidDomain(n) <==> exists k: nat :: 1 <= k <= 32 && n == Bits.Pow2(k)
  {
    assert Bits.Pow2(13) == 0x2000;
    assert Bits.Pow2(19) == 0x8_0000;
    assert Bits.Pow2(25) == 0x200_0000;
    assert Bits.Pow2(26) == 0x400_0000;
    assert Bits.Pow2(32) == MAX_DOMAIN_N;
    if n >= 1 {
      Bits.ClearLowestBitTest(n);
    }
    forall k: nat | n == Bits.Pow2(k)
      ensures (n >= 2 <==> k >= 1) && (n <= MAX_DOMAIN_N <==> k <= 32) && (n < 0x400_0000 <==> k <= 25)
      ensures n >= 0x400_0000 || n <= 0x200_0000
    {
      OrderOfPow2(k, 1);
      OrderOfPow2(k, 25);
      OrderOfPow2(k, 26);
      OrderOfPow2(k, 32);
    }
  }

  /** A Phase 2 shape is accepted exactly for up to 255 commitments, one vector each, and at most 16 GiB. */
  lemma AcceptedPhase2Shapes(s: Phase2Shape)
    ensures Phase2Size(s).Ok? <==>
            && s.commitments <= 255 && |s.sigmaCKK| == s.commitments
            && 48 * (s.pkk + s.z + Positions.Total(s.sigmaCKK, |s.sigmaCKK|)) + 299 + s.challengeLength + 244 * s.commitments
               <= 0x4_0000_0000
  {
    Phase2Width(s);
    TotalIsSum(s.sigmaCKK, |s.sigmaCKK|);
    assert s.sigmaCKK[..|s.sigmaCKK|] == s.sigmaCKK;
  }

  lemma {:induction false} TotalIsSum(lengths: seq<U32>, count: nat)
    requires count <= |lengths|
    ensures Positions.Total(lengths, count) == Sum(lengths[..count])
  {
    if count > 0 {
      TotalIsSum(lengths, count - 1);
      assert lengths[..count][..count - 1] == lengths[..count - 1];
    }
  }

  lemma OrderOfPow2(j: nat, k: nat)
    ensures Bits.Pow2(j) <= Bits.Pow2(k) <==> j <= k
  {
    if j < k {
      Bits.Pow2Monotonic(j, k);
    } else if k < j {
      Bits.Pow2Monotonic(k, j);
    }
  }

  // ----- Reading a layout from a stream -----

  datatype Ending = EndOfFile | Broken

  /** What a reader delivers: some bytes, and then end of file or an I/O error. */
  datatype Stream = Stream(bytes: seq<Byte>, ending: Ending)

  function ShortRead(available: nat, ending: Ending): Fault {
    if ending.Broken? then ReadFailure else if available == 0 then EndOfInput else UnexpectedEnd
  }

  function Refusal(field: Field): Fault {
    if field.Point? then NonCanonicalPoint else InvalidShape
  }

  /** Reads `fields` from the front of `bytes` with `room` expected bytes left, or says why it cannot. */
  function Scan(fields: seq<Field>, bytes: seq<Byte>, room: int, ending: Ending): Result<seq<Byte>, Fault> {
    if fields == [] then Ok(bytes)
    else
      var w := fields[0].Width();
      if |bytes| < w then Err(ShortRead(|bytes|, ending))
      else if w > room then Err(ExceedsExpected)
      else if !fields[0].Accepts(bytes[..w]) then Err(Refusal(fields[0]))
      else Scan(fields[1..], bytes[w..], room - w, ending)
  }

  lemma ScanOne(field: Field, bytes: seq<Byte>, room: int, ending: Ending)
    ensures Scan([field], bytes, room, ending) ==
            var w := field.Width();
            if |bytes| < w then Err(ShortRead(|bytes|, ending))
            else if w > room then Err(ExceedsExpected)
            else if !field.Accepts(bytes[..w]) then Err(Refusal(field))
            else Ok(bytes[w..])
    ensures Width([field]) == field.Width()
  {
    assert [field][1..] == [];
  }

  lemma {:induction false} ScanAppend(fs: seq<Field>, gs: seq<Field>, bytes: seq<Byte>, room: int, ending: Ending)
    ensures Scan(fs + gs, bytes, room, ending) ==
            match Scan(fs, bytes, room, ending)
            case Ok(rest) => Scan(gs, rest, room - Width(fs), ending)
            case Err(fault) => Err(fault)
  {
    if fs == [] {
      assert fs + gs == gs;
    } else {
      assert (fs + gs)[1..] == fs[1..] + gs;
      var w := fs[0].Width();
      if |bytes| >= w {
        ScanAppend(fs[1..], gs, bytes[w..], room - w, ending);
      }
    }
  }

  /** After `done` has been read, reading `next` continues the same scan. */
  lemma ScanThen(
    done: seq<Field>, next: seq<Field>, bytes: seq<Byte>, room: int, ending: Ending, rest: seq<Byte>)
    requires Scan(done, bytes, room, ending) == Ok(rest)
    ensures Scan(done + next, bytes, room, ending) == Scan(next, rest, room - Width(done), ending)
    ensures Width(done + next) == Width(done) + Width(next)
  {
    ScanAppend(done, next, bytes, room, ending);
    WidthAppend(done, next);
  }

  /**
   With enough room a scan succeeds exactly on the layout's own bytes, takes precisely its width,
   and never meets the length guard.
   */
  lemma {:induction false} ScanReadsLayout(fields: seq<Field>, bytes: seq<Byte>, room: int, ending: Ending)
    requires Width(fields) <= room
    ensures var result, w := Scan(fields, bytes, room, ending), Width(fields);
            && (result.Ok? <==> w <= |bytes| && IsLayout(fields, bytes[..w]))
            && (result.Ok? ==> result.value == bytes[w..])
            && result != Err(ExceedsExpected) && result != Err(SizeMismatch)
  {
    if fields != [] {
      var w, v := fields[0].Width(), Width(fields[1..]);
      if w <= |bytes| {
        ScanReadsLayout(fields[1..], bytes[w..], room - w, ending);
        if w + v <= |bytes| {
          var whole := bytes[..w + v];
          LayoutHeadTail(fields, whole);
          assert whole[..w] == bytes[..w];
          assert whole[w..] == bytes[w..][..v];
          assert bytes[w..][v..] == bytes[w + v..];
        }
      }
    }
  }

  /** Both hash states as the bytes written to them so far, with the size and the challenge. */
  datatype ArtifactDigest = ArtifactDigest(
    size: int, sha256Of: seq<Byte>, blake2b256Of: seq<Byte>, challenge: seq<Byte>)

  class Scanner {
    const stream: Stream
    const expected: int
    /** Bytes the underlying reader has delivered, of which `buffered` are not yet consumed. */
    var delivered: nat
    var buffered: seq<Byte>
    var n: nat
    var sha: seq<Byte>
    var blake: seq<Byte>
    /** The fields read so far. */
    ghost var taken: seq<Field>

    constructor (stream: Stream, expected: int)
      ensures this.stream == stream && this.expected == expected
      ensures Valid() && taken == []
    {
      this.stream, this.expected := stream, expected;
      delivered, buffered, n, sha, blake, taken := 0, [], 0, [], [], [];
    }

    /** Reading `fields` from the very start of the stream. */
    ghost function Outcome(fields: seq<Field>): Result<seq<Byte>, Fault> {
      Scan(fields, stream.bytes, expected, stream.ending)
    }

    ghost predicate Valid()
      reads this
    {
      && Buffered(n)
      && n == Width(taken)
      && Outcome(taken) == Ok(stream.bytes[n..])
    }

    /** The buffer holds what lies between `consumed` and the reader; the digests cover all that was delivered. */
    ghost predicate Buffered(consumed: nat)
      reads this
    {
      && consumed <= delivered <= |stream.bytes|
      && |buffered| <= PREFLIGHT_BUFFER
      && buffered == stream.bytes[consumed..delivered]
      && sha == blake == stream.bytes[..delivered]
    }

    /** One read of the underlying reader, of any length it chooses; both digests see it immediately. */
    method Fill(ghost consumed: nat)
      requires Buffered(consumed) && buffered == [] && delivered < |stream.bytes|
      modifies this
      ensures Buffered(consumed) && buffered != [] && delivered > old(delivered)
      ensures n == old(n) && taken == old(taken)
    {
      var limit := Min(PREFLIGHT_BUFFER, |stream.bytes| - delivered);
      var count: nat :| 1 <= count <= limit;
      var chunk := stream.bytes[delivered..delivered + count];
      sha, blake := sha + chunk, blake + chunk;
      buffered := chunk;
      delivered := delivered + count;
    }

    static lemma NextPiece(bytes: seq<Byte>, start: nat, size: nat, count: nat)
      requires start + size + count <= |bytes|
      ensures bytes[start..start + size] + bytes[start + size..start + size + count] == bytes[start..start + size + count]
    {
    }

    lemma BufferBounds(consumed: nat)
      requires Buffered(consumed)
      ensures consumed + |buffered| == delivered <= |stream.bytes|
    {
    }

    /** Up to `want` bytes out of the buffer. */
    method Drain(ghost consumed: nat, want: nat) returns (piece: seq<Byte>)
      requires Buffered(consumed)
      modifies `buffered
      ensures |piece| == Min(want, |old(buffered)|) && Buffered(consumed + |piece|)
      ensures piece == stream.bytes[consumed..consumed + |piece|]
      ensures buffered == old(buffered)[|piece|..]
    {
      var count := Min(want, |buffered|);
      piece, buffered := buffered[..count], buffered[count..];
    }

    /** One read through the buffer, which is refilled first when it is empty. */
    method ReadSome(ghost consumed: nat, want: nat) returns (piece: seq<Byte>)
      requires Buffered(consumed) && want > 0 && !(buffered == [] && delivered == |stream.bytes|)
      modifies this
      ensures n == old(n) && taken == old(taken)
      ensures 0 < |piece| <= want && Buffered(consumed + |piece|)
      ensures consumed + |piece| <= |stream.bytes| && piece == stream.bytes[consumed..consumed + |piece|]
    {
      if buffered == [] {
        Fill(consumed);
      }
      piece := Drain(consumed, want);
    }

    /** Full read of `size` bytes through the buffer: all of them, or what is left and the reason. */
    method ReadBuffered(size: nat) returns (data: seq<Byte>, fault: Option<Fault>)
      requires Buffered(n)
      modifies this
      ensures n == old(n) && taken == old(taken)
      ensures Buffered(n + |data|) && data == stream.bytes[n..n + |data|]
      ensures |data| == Min(size, |stream.bytes| - n)
      ensures fault == if |data| == size then None else Some(ShortRead(|data|, stream.ending))
      ensures |data| < size ==> delivered == |stream.bytes|
    {
      hide Buffered;
      data := [];
      BufferBounds(n);
      while |data| < size && !(buffered == [] && delivered == |stream.bytes|)
        invariant n == old(n) && taken == old(taken) && Buffered(n + |data|)
        invariant n + |data| + |buffered| == delivered <= |stream.bytes|
        invariant |data| <= size && data == stream.bytes[n..n + |data|]
        decreases size - |data|
      {
        var piece := ReadSome(n + |data|, size - |data|);
        BufferBounds(n + |data| + |piece|);
        NextPiece(stream.bytes, n, |data|, |piece|);
        data := data + piece;
      }
      fault := if |data| == size then None else Some(ShortRead(|data|, stream.ending));
    }

    method ReadFull(size: nat) returns (data: seq<Byte>, fault: Option<Fault>)
      requires Buffered(n)
      modifies this
      ensures taken == old(taken)
      ensures fault == var available := |stream.bytes| - old(n);
                       if available < size then Some(ShortRead(available, stream.ending))
                       else if old(n) + size > expected then Some(ExceedsExpected)
                       else None
      ensures fault.None? ==> n == old(n) + size && Buffered(n) && data == stream.bytes[old(n)..n]
    {
      data, fault := ReadBuffered(size);
      n := n + |data|;
      if fault.Some? {
        return;
      }
      if n > expected {
        fault := Some(ExceedsExpected);
      }
    }

    /** One field: a count that must equal the trusted one, a point with a canonical head, or raw bytes. */
    method ReadField(field: Field) returns (data: seq<Byte>, fault: Option<Fault>)
      requires Valid()
      requires field.Point? ==> field.size > 0
      modifies this
      ensures fault.Some? ==> Outcome(old(taken) + [field]) == Err(fault.value)
      ensures fault.None? ==> Valid() && taken == old(taken) + [field]
      ensures fault.None? ==> old(n) <= n <= |stream.bytes| && data == stream.bytes[old(n)..n]
    {
      ScanThen(taken, [field], stream.bytes, expected, stream.ending, stream.bytes[n..]);
      ScanOne(field, stream.bytes[n..], expected - n, stream.ending);
      ghost var start := n;
      data, fault := ReadFull(field.Width());
      if fault.Some? {
        return;
      }
      assert data == stream.bytes[start..][..field.Width()];
      assert stream.bytes[n..] == stream.bytes[start..][field.Width()..];
      match field {
        case Number(_, value) =>
          if BigEndian(data) != value {
            fault := Some(InvalidShape);
          }
        case Point(_) =>
          if !CanonicalHead(data[0]) {
            fault := Some(NonCanonicalPoint);
          }
        case Raw(_) =>
      }
      taken := taken + [field];
    }

    method ReadPoint(size: nat) returns (fault: Option<Fault>)
      requires Valid() && size > 0
      modifies this
      ensures fault.Some? ==> Outcome(old(taken) + [Point(size)]) == Err(fault.value)
      ensures fault.None? ==> Valid() && taken == old(taken) + [Point(size)]
    {
      var _, failed := ReadField(Point(size));
      fault := failed;
    }

    method ReadNumber(width: nat, value: nat) returns (fault: Option<Fault>)
      requires Valid()
      modifies this
      ensures fault.Some? ==> Outcome(old(taken) + [Number(width, value)]) == Err(fault.value)
      ensures fault.None? ==> Valid() && taken == old(taken) + [Number(width, value)]
    {
      var _, failed := ReadField(Number(width, value));
      fault := failed;
    }

    /** A scan that already failed on a prefix fails the same way on the whole. */
    lemma PrefixFails(prefix: seq<Field>, fields: seq<Field>)
      requires prefix <= fields && Outcome(prefix).Err?
      ensures Outcome(fields) == Outcome(prefix)
    {
      assert fields == prefix + fields[|prefix|..];
      ScanAppend(prefix, fields[|prefix|..], stream.bytes, expected, stream.ending);
    }

    method Points(size: nat, count: nat) returns (fault: Option<Fault>)
      requires Valid() && size > 0
      modifies this
      ensures fault.Some? ==> Outcome(old(taken) + Repeat(Point(size), count)) == Err(fault.value)
      ensures fault.None? ==> Valid() && taken == old(taken) + Repeat(Point(size), count)
    {
      ghost var before, all := taken, Repeat(Point(size), count);
      for i := 0 to count
        invariant Valid() && taken == before + Repeat(Point(size), i)
      {
        RepeatSplit(Point(size), i + 1, count);
        assert before + Repeat(Point(size), i + 1) == taken + [Point(size)] <= before + all;
        fault := ReadPoint(size);
        if fault.Some? {
          PrefixFails(before + Repeat(Point(size), i + 1), before + all);
          return;
        }
      }
      fault := None;
    }

    method VectorG1Of(length: U32) returns (fault: Option<Fault>)
      requires Valid()
      modifies this
      ensures fault.Some? ==> Outcome(old(taken) + VectorG1(length)) == Err(fault.value)
      ensures fault.None? ==> Valid() && taken == old(taken) + VectorG1(length)
    {
      ghost var before := taken;
      fault := ReadNumber(4, length);
      if fault.Some? {
        PrefixFails(before + [Number(4, length)], before + VectorG1(length));
        return;
      }
      assert before + VectorG1(length) == taken + Repeat(POINT_G1, length);
      fault := Points(G1_SIZE, length);
    }

    method VectorsG1Of(lengths: seq<U32>) returns (fault: Option<Fault>)
      requires Valid()
      modifies this
      ensures fault.Some? ==> Outcome(old(taken) + VectorsG1(lengths)) == Err(fault.value)
      ensures fault.None? ==> Valid() && taken == old(taken) + VectorsG1(lengths)
    {
      ghost var before := taken;
      for i := 0 to |lengths|
        invariant Valid() && taken == before + VectorsG1(lengths[..i])
      {
        VectorsSplit(i + 1, lengths);
        ghost var step := before + VectorsG1(lengths[..i + 1]);
        assert step == taken + VectorG1(lengths[i]) by {
          assert lengths[..i + 1][..i] == lengths[..i];
        }
        fault := VectorG1Of(lengths[i]);
        if fault.Some? {
          PrefixFails(step, before + VectorsG1(lengths));
          return;
        }
      }
      assert lengths[..|lengths|] == lengths;
      fault := None;
    }

    method UpdateProof() returns (fault: Option<Fault>)
      requires Valid()
      modifies this
      ensures fault.Some? ==> Outcome(old(taken) + UPDATE_PROOF) == Err(fault.value)
      ensures fault.None? ==> Valid() && taken == old(taken) + UPDATE_PROOF
    {
      ghost var before := taken;
      fault := ReadPoint(G1_SIZE);
      if fault.Some? {
        PrefixFails(before + [POINT_G1], before + UPDATE_PROOF);
        return;
      }
      assert before + UPDATE_PROOF == taken + [POINT_G2];
      fault := ReadPoint(G2_SIZE);
    }

    method UpdateProofsOf(count: nat) returns (fault: Option<Fault>)
      requires Valid()
      modifies this
      ensures fault.Some? ==> Outcome(old(taken) + UpdateProofs(count)) == Err(fault.value)
      ensures fault.None? ==> Valid() && taken == old(taken) + UpdateProofs(count)
    {
      ghost var before := taken;
      for i := 0 to count
        invariant Valid() && taken == before + UpdateProofs(i)
      {
        UpdateProofsSplit(i + 1, count);
        assert before + UpdateProofs(i + 1) == taken + UPDATE_PROOF <= before + UpdateProofs(count);
        fault := UpdateProof();
        if fault.Some? {
          PrefixFails(before + UpdateProofs(i + 1), before + UpdateProofs(count));
          return;
        }
      }
      fault := None;
    }

    method CommonsBodyOf(domainN: U64) returns (fault: Option<Fault>)
      requires Valid() && domainN >= 1
      modifies this
      ensures fault.Some? ==> Outcome(old(taken) + CommonsBody(domainN)) == Err(fault.value)
      ensures fault.None? ==> Valid() && taken == old(taken) + CommonsBody(domainN)
    {
      hide Outcome, Repeat;
      ghost var whole := taken + CommonsBody(domainN);
      ghost var step := taken + [POINT_G2];
      fault := ReadPoint(G2_SIZE);
      if fault.Some? {
        PrefixFails(step, whole);
        return;
      }
      step := taken + Repeat(POINT_G1, 2 * domainN - 2);
      fault := Points(G1_SIZE, 2 * domainN - 2);
      if fault.Some? {
        PrefixFails(step, whole);
        return;
      }
      step := taken + Repeat(POINT_G2, domainN - 1);
      fault := Points(G2_SIZE, domainN - 1);
      if fault.Some? {
        PrefixFails(step, whole);
        return;
      }
      step := taken + Repeat(POINT_G1, domainN);
      fault := Points(G1_SIZE, domainN);
      if fault.Some? {
        PrefixFails(step, whole);
        return;
      }
      assert whole == taken + Repeat(POINT_G1, domainN);
      fault := Points(G1_SIZE, domainN);
    }

    method Challenge(length: U8) returns (challenge: seq<Byte>, fault: Option<Fault>)
      requires Valid()
      modifies this
      ensures fault.Some? ==> Outcome(old(taken) + ChallengeFields(length)) == Err(fault.value)
      ensures fault.None? ==> Valid() && taken == old(taken) + ChallengeFields(length)
      ensures fault.None? ==> |challenge| == length <= n <= |stream.bytes|
      ensures fault.None? ==> challenge == stream.bytes[n - length..n]
    {
      ghost var before := taken;
      challenge, fault := ReadField(Number(1, length));
      if fault.Some? {
        PrefixFails(before + [Number(1, length)], before + ChallengeFields(length));
        return;
      }
      assert before + ChallengeFields(length) == taken + [Raw(length)];
      WidthAppend(taken, [Raw(length)]);
      ScanOne(Raw(length), [], 0, stream.ending);
      challenge, fault := ReadField(Raw(length));
    }

    method CommonsArtifact(s: CommonsShape) returns (fault: Option<Fault>)
      requires Valid() && taken == [] && s.domainN >= 1
      modifies this
      ensures fault.Some? ==> Outcome(CommonsFields(s)) == Err(fault.value)
      ensures fault.None? ==> Valid() && taken == CommonsFields(s)
    {
      assert taken + [Number(8, s.domainN)] == [Number(8, s.domainN)];
      fault := ReadNumber(8, s.domainN);
      if fault.Some? {
        PrefixFails([Number(8, s.domainN)], CommonsFields(s));
        return;
      }
      fault := CommonsBodyOf(s.domainN);
    }

    method Phase1Artifact(s: Phase1Shape) returns (challenge: seq<Byte>, fault: Option<Fault>)
      requires Valid() && taken == [] && s.domainN >= 1
      modifies this
      ensures fault.Some? ==> Outcome(Phase1Fields(s)) == Err(fault.value)
      ensures fault.None? ==> Valid() && taken == Phase1Fields(s)
      ensures fault.None? ==> |challenge| == s.challengeLength <= n <= |stream.bytes|
      ensures fault.None? ==> challenge == stream.bytes[n - s.challengeLength..n]
    {
      ghost var proofs := UpdateProofs(3);
      ghost var domain := proofs + [Number(8, s.domainN)];
      ghost var body := domain + CommonsBody(s.domainN);
      ghost var whole := Phase1Fields(s);
      Front(proofs, [Number(8, s.domainN)]);
      Front(domain, CommonsBody(s.domainN));
      Front(body, ChallengeFields(s.challengeLength));

      challenge := [];
      assert taken + proofs == proofs;
      fault := UpdateProofsOf(3);
      if fault.Some? {
        PrefixFails(proofs, whole);
        return;
      }
      fault := ReadNumber(8, s.domainN);
      if fault.Some? {
        PrefixFails(domain, whole);
        return;
      }
      fault := CommonsBodyOf(s.domainN);
      if fault.Some? {
        PrefixFails(body, whole);
        return;
      }
      challenge, fault := Challenge(s.challengeLength);
    }

    /** The parameters: Delta, PKK, Z and the commitment bases. */
    method Phase2Parameters(s: Phase2Shape) returns (fault: Option<Fault>)
      requires Valid() && taken == []
      modifies this
      ensures fault.Some? ==> Outcome(Phase2ParameterFields(s)) == Err(fault.value)
      ensures fault.None? ==> Valid() && taken == Phase2ParameterFields(s)
    {
      ghost var head := [Number(2, s.commitments), POINT_G1];
      ghost var pkk := head + VectorG1(s.pkk);
      ghost var z := pkk + VectorG1(s.z);
      ghost var delta := z + [POINT_G2];
      ghost var whole := Phase2ParameterFields(s);
      Front(head, VectorG1(s.pkk));
      Front(pkk, VectorG1(s.z));
      Front(z, [POINT_G2]);
      Front(delta, VectorsG1(s.sigmaCKK));

      assert taken + [Number(2, s.commitments)] == [Number(2, s.commitments)] == head[..1];
      fault := ReadNumber(2, s.commitments);
      if fault.Some? {
        PrefixFails(head[..1], whole);
        return;
      }
      assert taken + [POINT_G1] == head;
      fault := ReadPoint(G1_SIZE);
      if fault.Some? {
        PrefixFails(head, whole);
        return;
      }
      fault := VectorG1Of(s.pkk);
      if fault.Some? {
        PrefixFails(pkk, whole);
        return;
      }
      fault := VectorG1Of(s.z);
      if fault.Some? {
        PrefixFails(z, whole);
        return;
      }
      fault := ReadPoint(G2_SIZE);
      if fault.Some? {
        PrefixFails(delta, whole);
        return;
      }
      fault := VectorsG1Of(s.sigmaCKK);
    }

    method Phase2Artifact(s: Phase2Shape) returns (challenge: seq<Byte>, fault: Option<Fault>)
      requires Valid() && taken == []
      modifies this
      ensures fault.Some? ==> Outcome(Phase2Fields(s)) == Err(fault.value)
      ensures fault.None? ==> Valid() && taken == Phase2Fields(s)
      ensures fault.None? ==> |challenge| == s.challengeLength <= n <= |stream.bytes|
      ensures fault.None? ==> challenge == stream.bytes[n - s.challengeLength..n]
    {
      ghost var parameters := Phase2ParameterFields(s);
      ghost var sigmas := parameters + Repeat(POINT_G2, s.commitments);
      ghost var delta := sigmas + UPDATE_PROOF;
      ghost var proofs := delta + UpdateProofs(s.commitments);
      ghost var whole := Phase2Fields(s);
      Front(parameters, Repeat(POINT_G2, s.commitments));
      Front(sigmas, UPDATE_PROOF);
      Front(delta, UpdateProofs(s.commitments));
      Front(proofs, ChallengeFields(s.challengeLength));

      challenge := [];
      fault := Phase2Parameters(s);
      if fault.Some? {
        PrefixFails(parameters, whole);
        return;
      }
      fault := Points(G2_SIZE, s.commitments);
      if fault.Some? {
        PrefixFails(sigmas, whole);
        return;
      }
      fault := UpdateProof();
      if fault.Some? {
        PrefixFails(delta, whole);
        return;
      }
      fault := UpdateProofsOf(s.commitments);
      if fault.Some? {
        PrefixFails(proofs, whole);
        return;
      }
      challenge, fault := Challenge(s.challengeLength);
    }

    /** Requires end of file right after the expected bytes. */
    method Finish(challenge: seq<Byte>) returns (result: Result<ArtifactDigest, Fault>)
      requires Valid()
      modifies this
      ensures result ==
              if old(n) != expected then Err(SizeMismatch)
              else if old(n) < |stream.bytes| then Err(TrailingData)
              else if stream.ending.Broken? then Err(ReadFailure)
              else Ok(ArtifactDigest(expected, stream.bytes, stream.bytes, challenge))
    {
      if n != expected {
        return Err(SizeMismatch);
      }
      var extra, fault := ReadBuffered(1);
      n := n + |extra|;
      if fault.None? || |extra| != 0 {
        return Err(TrailingData);
      }
      if fault.value != EndOfInput && fault.value != UnexpectedEnd {
        return Err(ReadFailure);
      }
      assert stream.bytes[..|stream.bytes|] == stream.bytes;
      result := Ok(ArtifactDigest(expected, sha, blake, challenge));
    }
  }

  lemma {:induction false} RepeatSplit(field: Field, i: nat, count: nat)
    requires i <= count
    ensures |Repeat(field, count)| == count && Repeat(field, count)[..i] == Repeat(field, i)
  {
    RepeatWidth(field, count);
    RepeatWidth(field, i);
    if i < count {
      RepeatSplit(field, i, count - 1);
      assert Repeat(field, count)[..i] == Repeat(field, count - 1)[..i];
    }
  }

  lemma Front(fields: seq<Field>, more: seq<Field>)
    ensures fields <= fields + more
  {
  }

  lemma {:induction false} VectorsSplit(i: nat, lengths: seq<U32>)
    requires i <= |lengths|
    ensures VectorsG1(lengths[..i]) <= VectorsG1(lengths)
  {
    if i == |lengths| {
      assert lengths[..i] == lengths;
    } else {
      var front := lengths[..|lengths| - 1];
      VectorsSplit(i, front);
      assert front[..i] == lengths[..i];
    }
  }

  lemma {:induction false} UpdateProofsSplit(i: nat, count: nat)
    requires i <= count
    ensures UpdateProofs(i) <= UpdateProofs(count)
  {
    if i < count {
      UpdateProofsSplit(i, count - 1);
    }
  }

  // ----- The three preflights -----

  /**
   What a preflight promises about an artifact laid out as `fields` and ending in a challenge of `length` bytes:
   it succeeds exactly on that layout followed by end of file, both digests then cover the whole input,
   bytes after a complete layout are trailing data, and no length guard or overflow check is ever the reason.
   */
  ghost predicate Inspected(
    result: Result<ArtifactDigest, Fault>, fields: seq<Field>, length: nat, stream: Stream)
  {
    && (result.Ok? <==> stream.ending.EndOfFile? && IsLayout(fields, stream.bytes))
    && (result.Ok? ==>
          && length <= |stream.bytes|
          && result.value == ArtifactDigest(
               |stream.bytes|, stream.bytes, stream.bytes, stream.bytes[|stream.bytes| - length..]))
    && (result == Err(TrailingData) <==>
          Width(fields) < |stream.bytes| && IsLayout(fields, stream.bytes[..Width(fields)]))
    && (result.Err? ==> result.error !in {ExceedsExpected, SizeMismatch, Overflow, TooLarge})
  }

  /** A field refused part-way settles the verdict on the whole artifact. */
  lemma RefusedEarly(prefix: seq<Field>, fields: seq<Field>, length: nat, stream: Stream)
    requires prefix <= fields
    requires Scan(prefix, stream.bytes, Width(fields), stream.ending).Err?
    ensures Inspected(Err(Scan(prefix, stream.bytes, Width(fields), stream.ending).error), fields, length, stream)
  {
    var room := Width(fields);
    assert fields == prefix + fields[|prefix|..];
    ScanAppend(prefix, fields[|prefix|..], stream.bytes, room, stream.ending);
    ScanReadsLayout(fields, stream.bytes, room, stream.ending);
    ScanFaults(fields, stream.bytes, room, stream.ending);
    if |stream.bytes| == room {
      assert stream.bytes[..room] == stream.bytes;
    }
  }

  lemma {:induction false} ScanFaults(fields: seq<Field>, bytes: seq<Byte>, room: int, ending: Ending)
    ensures var result := Scan(fields, bytes, room, ending);
            result.Err? ==> result.error !in {TrailingData, SizeMismatch, Overflow, TooLarge}
  {
    if fields != [] {
      var w := fields[0].Width();
      if w <= |bytes| {
        ScanFaults(fields[1..], bytes[w..], room - w, ending);
      }
    }
  }

  /** After all fields, Finish gives the verdict. */
  lemma ReadToTheEnd(fields: seq<Field>, length: nat, stream: Stream, result: Result<ArtifactDigest, Fault>)
    requires Scan(fields, stream.bytes, Width(fields), stream.ending).Ok?
    requires length <= Width(fields)
    requires Width(fields) <= |stream.bytes|
    requires result ==
             if Width(fields) < |stream.bytes| then Err(TrailingData)
             else if stream.ending.Broken? then Err(ReadFailure)
             else Ok(ArtifactDigest(Width(fields), stream.bytes, stream.bytes,
                                    stream.bytes[Width(fields) - length..Width(fields)]))
    ensures Inspected(result, fields, length, stream)
  {
    ScanReadsLayout(fields, stream.bytes, Width(fields), stream.ending);
    if |stream.bytes| == Width(fields) {
      assert stream.bytes[..Width(fields)] == stream.bytes;
    }
  }

  method PreflightCommons(stream: Stream, s: CommonsShape) returns (result: Result<ArtifactDigest, Fault>)
    ensures ExpectedCommonsSize(s).Err? ==> result == Err(ExpectedCommonsSize(s).error)
    ensures ExpectedCommonsSize(s).Ok? ==> s.domainN >= 1 && Inspected(result, CommonsFields(s), 0, stream)
    ensures ExpectedCommonsSize(s).Ok? ==>
              (result.Ok? <==> stream.ending.EndOfFile? && Positions.CommonsBytes(stream.bytes, s.domainN))
  {
    hide Positions.CommonsBytes;
    if s.domainN >= 1 {
      Positions.CommonsPositions(s, stream.bytes);
    }
    var expected := ExpectedCommonsSize(s);
    if expected.Err? {
      return Err(expected.error);
    }
    ExpectedSizesAreWidths(s, Phase1Shape(0, 0));
    var sc := new Scanner(stream, expected.value);
    var fault := sc.CommonsArtifact(s);
    if fault.Some? {
      RefusedEarly(CommonsFields(s), CommonsFields(s), 0, stream);
      return Err(fault.value);
    }
    result := sc.Finish([]);
    ReadToTheEnd(CommonsFields(s), 0, stream, result);
  }

  method PreflightPhase1(stream: Stream, s: Phase1Shape) returns (result: Result<ArtifactDigest, Fault>)
    ensures ExpectedPhase1Size(s).Err? ==> result == Err(ExpectedPhase1Size(s).error)
    ensures ExpectedPhase1Size(s).Ok? ==>
              s.domainN >= 1 && Inspected(result, Phase1Fields(s), s.challengeLength, stream)
    ensures ExpectedPhase1Size(s).Ok? ==>
              (result.Ok? <==>
                 stream.ending.EndOfFile? && Positions.Phase1Bytes(stream.bytes, s.domainN, s.challengeLength))
  {
    hide Positions.Phase1Bytes;
    if s.domainN >= 1 {
      Positions.Phase1Positions(s, stream.bytes);
    }
    var expected := ExpectedPhase1Size(s);
    if expected.Err? {
      return Err(expected.error);
    }
    ExpectedSizesAreWidths(CommonsShape(0), s);
    var sc := new Scanner(stream, expected.value);
    var challenge, fault := sc.Phase1Artifact(s);
    if fault.Some? {
      RefusedEarly(Phase1Fields(s), Phase1Fields(s), s.challengeLength, stream);
      return Err(fault.value);
    }
    result := sc.Finish(challenge);
    ReadToTheEnd(Phase1Fields(s), s.challengeLength, stream, result);
  }

  method PreflightPhase2(stream: Stream, s: Phase2Shape) returns (result: Result<ArtifactDigest, Fault>)
    ensures Phase2Size(s).Err? ==> result == Err(Phase2Size(s).error)
    ensures Phase2Size(s).Ok? ==> Inspected(result, Phase2Fields(s), s.challengeLength, stream)
    ensures Phase2Size(s).Ok? ==>
              (result.Ok? <==>
                 && stream.ending.EndOfFile?
                 && Positions.Phase2Bytes(stream.bytes, s.commitments, s.pkk, s.z, s.sigmaCKK, s.challengeLength))
  {
    hide Positions.Phase2Bytes;
    Positions.Phase2Positions(s, stream.bytes);
    var expected := ExpectedPhase2Size(s);
    if expected.Err? {
      return Err(expected.error);
    }
    var sc := new Scanner(stream, expected.value);
    var challenge, fault := sc.Phase2Artifact(s);
    if fault.Some? {
      RefusedEarly(Phase2Fields(s), Phase2Fields(s), s.challengeLength, stream);
      return Err(fault.value);
    }
    result := sc.Finish(challenge);
    ReadToTheEnd(Phase2Fields(s), s.challengeLength, stream, result);
  }
}
