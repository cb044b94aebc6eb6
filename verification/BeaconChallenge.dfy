/** The beacon challenge: length-prefixed framing under a domain tag, which makes every input tuple unambiguous. */
module BeaconChallenges {
  import opened Common
  import Layout
  import Positions

  type Bytes = seq<Byte>

  /** The bytes of a text, one for each character. */
  function Ascii(text: string): (bytes: Bytes)
    requires forall i | 0 <= i < |text| :: (text[i] as int) < 0x80
    ensures |bytes| == |text| && forall i | 0 <= i < |text| :: bytes[i] == text[i] as int
  {
    seq(|text|, i requires 0 <= i < |text| => text[i] as int)
  }

  const DOMAIN_TEXT := "proof-tool/mpc-ceremony/beacon-challenge/v1"
  const PROVIDER_DRAND := "drand"
  const NETWORK_QUICKNET := "quicknet-mainnet"

  function Domain(): (domain: Bytes)
    ensures |domain| == 43
  {
    Ascii(DOMAIN_TEXT)
  }

  /** The big-endian encoding of n in `width` bytes. */
  function BigEndianBytes(n: nat, width: nat): (bytes: Bytes)
    ensures |bytes| == width
  {
    if width == 0 then [] else BigEndianBytes(n / 0x100, width - 1) + [n % 0x100]
  }

  function Capacity256(width: nat): nat {
    if width == 0 then 1 else Capacity256(width - 1) * 0x100
  }

  lemma {:induction false} DecodesBigEndian(n: nat, width: nat)
    requires n < Capacity256(width)
    ensures Layout.BigEndian(BigEndianBytes(n, width)) == n
  {
    if width > 0 {
      DecodesBigEndian(n / 0x100, width - 1);
      var bytes := BigEndianBytes(n, width);
      assert bytes[..width - 1] == BigEndianBytes(n / 0x100, width - 1);
    }
  }

  lemma Widths()
    ensures Capacity256(4) == 0x1_0000_0000
    ensures Capacity256(8) == TWO_TO_THE_64
  {
    assert Capacity256(1) == 0x100;
    assert Capacity256(2) == 0x1_0000;
    assert Capacity256(3) == 0x100_0000;
    assert Capacity256(4) == 0x1_0000_0000;
    assert Capacity256(5) == 0x100_0000_0000;
    assert Capacity256(6) == 0x1_0000_0000_0000;
    assert Capacity256(7) == 0x100_0000_0000_0000;
  }

  /** A value preceded by its length in four bytes, of which only the low 32 bits are kept. */
  function Field(value: Bytes): Bytes {
    BigEndianBytes(|value| % 0x1_0000_0000, 4) + value
  }

  datatype Inputs = Inputs(closeId: Bytes, provider: Bytes, network: Bytes, round: U64, randomness: Bytes)

  /** The bytes hashed: domain tag, zero byte, three fields, the round, and the randomness. */
  function Framed(domain: Bytes, i: Inputs): Bytes {
    domain + [0] + Field(i.closeId) + Field(i.provider) + Field(i.network) + BigEndianBytes(i.round, 8)
    + Field(i.randomness)
  }

  predicate Holds(bytes: Bytes, at: nat, part: Bytes) {
    at + |part| <= |bytes| && bytes[at..at + |part|] == part
  }

  /** The hashed bytes by offset, for a provider of 5, a network of 16 and randomness of 32 bytes. */
  predicate FramedAt(bytes: Bytes, i: Inputs) {
    var n := |i.closeId|;
    && |bytes| == n + 121
    && (forall k | 0 <= k < 43 :: bytes[k] == DOMAIN_TEXT[k] as int) && bytes[43] == 0
    && Positions.U32At(bytes, 44, n) && Holds(bytes, 48, i.closeId)
    && Positions.U32At(bytes, 48 + n, 5)
    && (forall k | 0 <= k < 5 :: bytes[52 + n + k] == PROVIDER_DRAND[k] as int)
    && Positions.U32At(bytes, 57 + n, 16)
    && (forall k | 0 <= k < 16 :: bytes[61 + n + k] == NETWORK_QUICKNET[k] as int)
    && Positions.U64At(bytes, 77 + n, i.round)
    && Positions.U32At(bytes, 85 + n, 32) && Holds(bytes, 89 + n, i.randomness)
  }

  class Hasher {
    var written: Bytes

    constructor ()
      ensures written == []
    {
      written := [];
    }

    method Write(bytes: Bytes)
      modifies this
      ensures written == old(written) + bytes
    {
      written := written + bytes;
    }

    method WriteField(value: Bytes)
      modifies this
      ensures written == old(written) + Field(value)
    {
      Write(BigEndianBytes(|value| % 0x1_0000_0000, 4));
      Write(value);
    }
  }

  /** The format of a hash id and SHA-256, which the framing does not depend on. */
  datatype Protocol = Protocol(isHashId: Bytes -> bool, sha256: Bytes -> Bytes)

  ghost predicate Admissible(p: Protocol, i: Inputs) {
    && p.isHashId(i.closeId)
    && i.provider == Ascii(PROVIDER_DRAND) && i.network == Ascii(NETWORK_QUICKNET)
    && i.round != 0
    && |i.randomness| == 32
  }

  /** The hash of the framed inputs, for the pinned network, a positive round and 32 bytes of randomness. */
  method DeriveBeaconChallenge(p: Protocol, i: Inputs) returns (challenge: Option<Bytes>)
    ensures challenge.Some? <==> Admissible(p, i)
    ensures challenge.Some? ==> challenge.value == p.sha256(Framed(Domain(), i))
    ensures challenge.Some? && Short(i.closeId) ==> FramedAt(Framed(Domain(), i), i)
  {
    hide FramedAt, Field, Domain;
    if Short(i.closeId) && Admissible(p, i) {
      FramedPositions(p, i);
    }
    if !p.isHashId(i.closeId) || i.provider != Ascii(PROVIDER_DRAND) || i.network != Ascii(NETWORK_QUICKNET) {
      return None;
    }
    if i.round == 0 || |i.randomness| != 32 {
      return None;
    }
    var digest := new Hasher();
    digest.Write(Domain());
    digest.Write([0]);
    digest.WriteField(i.closeId);
    digest.WriteField(i.provider);
    digest.WriteField(i.network);
    digest.Write(BigEndianBytes(i.round, 8));
    digest.WriteField(i.randomness);
    assert digest.written == Framed(Domain(), i);
    challenge := Some(p.sha256(digest.written));
  }

  predicate Short(value: Bytes) {
    |value| < 0x1_0000_0000
  }

  lemma SplitAt(a: Bytes, x: Bytes, b: Bytes, y: Bytes)
    requires a + x == b + y && |a| == |b|
    ensures a == b && x == y
  {
    assert a == (a + x)[..|a|] == (b + y)[..|b|] == b;
    assert x == (a + x)[|a|..] == (b + y)[|b|..] == y;
  }

  /** A field tells where it ends, so whatever follows it does not matter. */
  lemma FieldIsSelfDelimiting(a: Bytes, x: Bytes, b: Bytes, y: Bytes)
    requires Short(a) && Short(b)
    requires Field(a) + x == Field(b) + y
    ensures a == b && x == y
  {
    hide BigEndianBytes, Layout.BigEndian, Capacity256;
    Widths();
    var p, q := BigEndianBytes(|a|, 4), BigEndianBytes(|b|, 4);
    assert Field(a) + x == p + (a + x) && Field(b) + y == q + (b + y);
    SplitAt(p, a + x, q, b + y);
    DecodesBigEndian(|a|, 4);
    DecodesBigEndian(|b|, 4);
    SplitAt(a, x, b, y);
  }

  /** Two input tuples are framed alike only if they are equal in every component. */
  lemma FramingIsInjective(domain: Bytes, i: Inputs, j: Inputs)
    requires Short(i.closeId) && Short(i.provider) && Short(i.network) && Short(i.randomness)
    requires Short(j.closeId) && Short(j.provider) && Short(j.network) && Short(j.randomness)
    requires Framed(domain, i) == Framed(domain, j)
    ensures i == j
  {
    hide Field, BigEndianBytes;
    var r, s := BigEndianBytes(i.round, 8) + Field(i.randomness), BigEndianBytes(j.round, 8) + Field(j.randomness);
    var c, d := Field(i.network) + r, Field(j.network) + s;
    var e, f := Field(i.provider) + c, Field(j.provider) + d;
    Regroup(domain, i);
    Regroup(domain, j);
    SplitAt(domain + [0], Field(i.closeId) + e, domain + [0], Field(j.closeId) + f);
    FieldIsSelfDelimiting(i.closeId, e, j.closeId, f);
    FieldIsSelfDelimiting(i.provider, c, j.provider, d);
    FieldIsSelfDelimiting(i.network, r, j.network, s);
    SplitAt(BigEndianBytes(i.round, 8), Field(i.randomness), BigEndianBytes(j.round, 8), Field(j.randomness));
    Widths();
    DecodesBigEndian(i.round, 8);
    DecodesBigEndian(j.round, 8);
    assert Field(i.randomness) + [] == Field(i.randomness) && Field(j.randomness) + [] == Field(j.randomness);
    FieldIsSelfDelimiting(i.randomness, [], j.randomness, []);
  }

  lemma Regroup(domain: Bytes, i: Inputs)
    ensures Framed(domain, i) ==
            (domain + [0]) + (Field(i.closeId) + (Field(i.provider) + (Field(i.network) +
                                                                        (BigEndianBytes(i.round, 8) + Field(i.randomness)))))
  {
    hide Field, BigEndianBytes;
  }

  lemma AppendHolds(a: Bytes, b: Bytes)
    ensures Holds(a + b, |a|, b)
    ensures forall at: nat, part: Bytes :: Holds(a, at, part) ==> Holds(a + b, at, part)
  {
    forall at: nat, part: Bytes | Holds(a, at, part)
      ensures Holds(a + b, at, part)
    {
      assert (a + b)[at..at + |part|] == a[at..at + |part|];
    }
  }

  lemma WordsHold(bytes: Bytes, at: nat, value: nat)
    ensures value < 0x1_0000_0000 && Holds(bytes, at, BigEndianBytes(value, 4)) ==> Positions.U32At(bytes, at, value)
    ensures value < TWO_TO_THE_64 && Holds(bytes, at, BigEndianBytes(value, 8)) ==> Positions.U64At(bytes, at, value)
  {
    hide BigEndianBytes, Layout.BigEndian, Positions.U32At, Positions.U64At;
    Widths();
    if value < 0x1_0000_0000 {
      DecodesBigEndian(value, 4);
    }
    if value < TWO_TO_THE_64 {
      DecodesBigEndian(value, 8);
    }
    Positions.SlicesAreBigEndian(bytes, at, value);
  }

  /** A field at an offset is its length and then its bytes. */
  lemma FieldHolds(bytes: Bytes, at: nat, value: Bytes)
    requires Short(value) && Holds(bytes, at, Field(value))
    ensures Positions.U32At(bytes, at, |value|) && Holds(bytes, at + 4, value)
  {
    hide BigEndianBytes, Positions.U32At;
    var length, field := BigEndianBytes(|value|, 4), Field(value);
    assert bytes[at..at + |field|] == length + value;
    assert bytes[at..at + 4] == bytes[at..at + |field|][..4] == length;
    assert bytes[at + 4..at + 4 + |value|] == bytes[at..at + |field|][4..] == value;
    WordsHold(bytes, at, |value|);
  }

  /** What stands where in the hashed bytes. */
  lemma FramedPositions(p: Protocol, i: Inputs)
    requires Admissible(p, i) && Short(i.closeId)
    ensures FramedAt(Framed(Domain(), i), i)
  {
    hide Holds, Framed, Field, BigEndianBytes, Positions.U32At, Positions.U64At;
    var n, whole := |i.closeId|, Framed(Domain(), i);
    assert |Domain()| == 43;
    FieldLengths(i);
    FramedPieces(Domain(), i);
    FieldHolds(whole, 44, i.closeId);
    FieldHolds(whole, 48 + n, i.provider);
    FieldHolds(whole, 57 + n, i.network);
    WordsHold(whole, 77 + n, i.round);
    FieldHolds(whole, 85 + n, i.randomness);
    Spelled(whole, 0, DOMAIN_TEXT);
    Spelled(whole, 52 + n, PROVIDER_DRAND);
    Spelled(whole, 61 + n, NETWORK_QUICKNET);
    ZeroHolds(whole, 43);
  }

  lemma ZeroHolds(bytes: Bytes, at: nat)
    requires Holds(bytes, at, [0])
    ensures at < |bytes| && bytes[at] == 0
  {
    assert bytes[at..at + 1][0] == 0;
  }

  /** The seven pieces one after the other. */
  lemma FramedPieces(domain: Bytes, i: Inputs)
    ensures var whole, at := Framed(domain, i), |domain| + 1;
            var provider := at + |Field(i.closeId)|;
            var network := provider + |Field(i.provider)|;
            var round := network + |Field(i.network)|;
            && |whole| == round + 8 + |Field(i.randomness)|
            && Holds(whole, 0, domain) && Holds(whole, |domain|, [0])
            && Holds(whole, at, Field(i.closeId))
            && Holds(whole, provider, Field(i.provider))
            && Holds(whole, network, Field(i.network))
            && Holds(whole, round, BigEndianBytes(i.round, 8))
            && Holds(whole, round + 8, Field(i.randomness))
  {
    hide Field, BigEndianBytes;
    assert Holds(domain, 0, domain);
    hide Holds;
    var a := domain + [0];
    var b := a + Field(i.closeId);
    var c := b + Field(i.provider);
    var d := c + Field(i.network);
    var e := d + BigEndianBytes(i.round, 8);
    AppendHolds(domain, [0]);
    AppendHolds(a, Field(i.closeId));
    AppendHolds(b, Field(i.provider));
    AppendHolds(c, Field(i.network));
    AppendHolds(d, BigEndianBytes(i.round, 8));
    AppendHolds(e, Field(i.randomness));
  }

  lemma FieldLengths(i: Inputs)
    ensures |Field(i.closeId)| == 4 + |i.closeId| && |Field(i.provider)| == 4 + |i.provider|
    ensures |Field(i.network)| == 4 + |i.network| && |Field(i.randomness)| == 4 + |i.randomness|
  {
  }

  lemma Spelled(bytes: Bytes, at: nat, text: string)
    requires forall i | 0 <= i < |text| :: (text[i] as int) < 0x80
    requires Holds(bytes, at, Ascii(text))
    ensures forall k | 0 <= k < |text| :: bytes[at + k] == text[k] as int
  {
    forall k | 0 <= k < |text|
      ensures bytes[at + k] == text[k] as int
    {
      assert bytes[at..at + |text|][k] == Ascii(text)[k];
    }
  }

  /** So with a hash that does not collide, one challenge belongs to one closed phase, round and randomness. */
  lemma ChallengeCommits(p: Protocol, i: Inputs, j: Inputs)
    requires forall x: Bytes, y: Bytes :: p.sha256(x) == p.sha256(y) ==> x == y
    requires Admissible(p, i) && Admissible(p, j)
    requires Short(i.closeId) && Short(j.closeId)
    requires p.sha256(Framed(Domain(), i)) == p.sha256(Framed(Domain(), j))
    ensures i.closeId == j.closeId && i.round == j.round && i.randomness == j.randomness
  {
    FramingIsInjective(Domain(), i, j);
  }
}
