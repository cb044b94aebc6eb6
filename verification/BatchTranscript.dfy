/** The version 2 reclaim batch transcript: its framing, which is injective, and its challenge scalars. */
module BatchTranscripts {
  import opened Common
  import opened Layout

  const VK_HASH_LEN := 32
  const PROOF_LEN := 336
  const DIGEST_LEN := 32
  const SLOT_LEN := 368
  const MAX_SLOTS := 65535

  type Bytes = seq<Byte>

  datatype Failure = KeyHashLength | ListLengths | TooManySlots | ProofLength(slot: nat) | DigestLength(slot: nat)

  /** The bytes of ROOT-OWNERSHIP-POK-BATCH-v2. */
  function Domain(): (domain: Bytes)
    ensures |domain| == 27
  {
    [0x52, 0x4f, 0x4f, 0x54, 0x2d, 0x4f, 0x57, 0x4e, 0x45, 0x52, 0x53, 0x48, 0x49, 0x50, 0x2d, 0x50, 0x4f, 0x4b,
     0x2d, 0x42, 0x41, 0x54, 0x43, 0x48, 0x2d, 0x76, 0x32]
  }

  datatype Batch = Batch(vkHash: Bytes, proofs: seq<Bytes>, digests: seq<Bytes>)

  ghost predicate GoodSlot(batch: Batch, i: int) {
    0 <= i < |batch.proofs| && i < |batch.digests| && |batch.proofs[i]| == PROOF_LEN && |batch.digests[i]| == DIGEST_LEN
  }

  ghost predicate Valid(batch: Batch) {
    && |batch.vkHash| == VK_HASH_LEN
    && |batch.proofs| == |batch.digests| <= MAX_SLOTS
    && (forall i | 0 <= i < |batch.proofs| :: GoodSlot(batch, i))
  }

  /** The concatenation of the first n slots. */
  ghost function Slots(batch: Batch, n: nat): (bytes: Bytes)
    requires n <= |batch.proofs| && n <= |batch.digests|
    requires forall i | 0 <= i < n :: GoodSlot(batch, i)
    ensures |bytes| == n * 368
  {
    if n == 0 then []
    else
      assert GoodSlot(batch, n - 1);
      Slots(batch, n - 1) + batch.proofs[n - 1] + batch.digests[n - 1]
  }

  lemma NextSlot(batch: Batch, i: nat)
    requires i < |batch.proofs| && i < |batch.digests|
    requires forall k | 0 <= k <= i :: GoodSlot(batch, k)
    ensures Slots(batch, i + 1) == Slots(batch, i) + batch.proofs[i] + batch.digests[i]
  {
  }

  ghost function Transcript(batch: Batch): Bytes
    requires Valid(batch)
  {
    var n := |batch.proofs|;
    Domain() + batch.vkHash + [n / 0x100, n % 0x100] + Slots(batch, n)
  }

  function Capacity(slots: nat): nat {
    |Domain()| + VK_HASH_LEN + 2 + slots * 368
  }

  /**
   The transcript of a valid batch, at exactly the capacity reserved for it; otherwise the first complaint, where
   slots are looked at in order and a slot's proof before its digest.
   */
  method BuildV2(vkHash: Bytes, proofs: seq<Bytes>, digests: seq<Bytes>) returns (r: Result<Bytes, Failure>)
    ensures r.Ok? <==> Valid(Batch(vkHash, proofs, digests))
    ensures r.Ok? ==> r.value == Transcript(Batch(vkHash, proofs, digests)) && |r.value| == Capacity(|proofs|)
    ensures r == Err(KeyHashLength) <==> |vkHash| != VK_HASH_LEN
    ensures r == Err(ListLengths) <==> |vkHash| == VK_HASH_LEN && |proofs| != |digests|
    ensures r == Err(TooManySlots) <==> |vkHash| == VK_HASH_LEN && |proofs| == |digests| > MAX_SLOTS
    ensures r.Err? && (r.error.ProofLength? || r.error.DigestLength?) ==>
              var batch := Batch(vkHash, proofs, digests);
              && !GoodSlot(batch, r.error.slot) && forall i | 0 <= i < r.error.slot :: GoodSlot(batch, i)
    ensures r.Err? && r.error.ProofLength? ==> r.error.slot < |proofs| && |proofs[r.error.slot]| != PROOF_LEN
    ensures r.Err? && r.error.DigestLength? ==> r.error.slot < |proofs| && |proofs[r.error.slot]| == PROOF_LEN
  {
    if |vkHash| != VK_HASH_LEN {
      return Err(KeyHashLength);
    }
    if |proofs| != |digests| {
      return Err(ListLengths);
    }
    if |proofs| > MAX_SLOTS {
      return Err(TooManySlots);
    }
    ghost var batch := Batch(vkHash, proofs, digests);
    var transcript: Bytes := [];
    transcript := transcript + Domain();
    transcript := transcript + vkHash;
    transcript := transcript + [|proofs| / 0x100 % 0x100, |proofs| % 0x100];
    ghost var head := transcript;
    hide Slots, Domain;
    for i := 0 to |proofs|
      invariant forall k | 0 <= k < i :: GoodSlot(batch, k)
      invariant transcript == head + Slots(batch, i)
    {
      if |proofs[i]| != PROOF_LEN {
        assert !GoodSlot(batch, i);
        return Err(ProofLength(i));
      }
      if |digests[i]| != DIGEST_LEN {
        assert !GoodSlot(batch, i);
        return Err(DigestLength(i));
      }
      transcript := transcript + proofs[i];
      transcript := transcript + digests[i];
      NextSlot(batch, i);
    }
    r := Ok(transcript);
  }

  // ----------------------------------------------------------------------------------------------------- reading back

  /** Slot i of a transcript, as a proof and a digest. */
  function SlotAt(transcript: Bytes, i: nat): (Bytes, Bytes)
    requires Capacity(i + 1) <= |transcript|
  {
    var start := Capacity(i);
    (transcript[start..start + PROOF_LEN], transcript[start + PROOF_LEN..start + SLOT_LEN])
  }

  function Count(transcript: Bytes): nat
    requires |transcript| >= Capacity(0)
  {
    (transcript[59] as int) * 0x100 + transcript[60]
  }

  /** A reader that goes by the count: it splits off the key hash and that many slots, and wants nothing more. */
  function Read(transcript: Bytes): Option<Batch> {
    if |transcript| < Capacity(0) || transcript[..27] != Domain() then None
    else
      var n := Count(transcript);
      if |transcript| != Capacity(n) then None
      else
        Some(Batch(transcript[27..59],
                   seq(n, (i: nat) requires i < n => SlotAt(transcript, i).0),
                   seq(n, (i: nat) requires i < n => SlotAt(transcript, i).1)))
  }

  lemma {:induction false} SlotsAt(batch: Batch, n: nat, i: nat)
    requires i < n <= |batch.proofs| && n <= |batch.digests|
    requires forall k | 0 <= k < n :: GoodSlot(batch, k)
    ensures var start := i * 368;
            && Slots(batch, n)[start..start + PROOF_LEN] == batch.proofs[i]
            && Slots(batch, n)[start + PROOF_LEN..start + SLOT_LEN] == batch.digests[i]
  {
    hide Slots;
    NextSlot(batch, n - 1);
    assert GoodSlot(batch, n - 1);
    var before, all := Slots(batch, n - 1), Slots(batch, n);
    var proof, digest := batch.proofs[n - 1], batch.digests[n - 1];
    assert all == before + proof + digest;
    var start := i * 368;
    if i < n - 1 {
      SlotsAt(batch, n - 1, i);
      assert start + SLOT_LEN <= |before|;
      assert all[start..start + PROOF_LEN] == before[start..start + PROOF_LEN];
      assert all[start + PROOF_LEN..start + SLOT_LEN] == before[start + PROOF_LEN..start + SLOT_LEN];
    } else {
      assert |before| == start;
      assert all[start..start + PROOF_LEN] == proof;
      assert all[start + PROOF_LEN..start + SLOT_LEN] == digest;
    }
  }

  /** Reading a transcript gives the batch back. */
  lemma ReadOfTranscript(batch: Batch)
    requires Valid(batch)
    ensures Read(Transcript(batch)) == Some(batch)
  {
    var transcript := Transcript(batch);
    var n := |batch.proofs|;
    var slots := Slots(batch, n);
    assert transcript[..27] == Domain();
    assert transcript[27..59] == batch.vkHash;
    assert Count(transcript) == n;
    forall i | 0 <= i < n
      ensures Capacity(i + 1) <= |transcript| && SlotAt(transcript, i) == (batch.proofs[i], batch.digests[i])
    {
      SlotsAt(batch, n, i);
      assert transcript[61..] == slots;
      var start := i * 368;
      assert (i + 1) * 368 <= n * 368;
      assert transcript[61 + start..61 + start + PROOF_LEN] == slots[start..start + PROOF_LEN];
      assert transcript[61 + start + PROOF_LEN..61 + start + SLOT_LEN] == slots[start + PROOF_LEN..start + SLOT_LEN];
    }
    var read := Read(transcript).value;
    assert read.proofs == batch.proofs && read.digests == batch.digests;
  }

  /** Two batches with the same transcript are the same: key hash, every proof and every digest. */
  lemma TranscriptIsInjective(a: Batch, b: Batch)
    requires Valid(a) && Valid(b) && Transcript(a) == Transcript(b)
    ensures a == b
  {
    ReadOfTranscript(a);
    ReadOfTranscript(b);
  }

  const DOMAIN_TEXT := "ROOT-OWNERSHIP-POK-BATCH-v2"

  /** The transcript by offset: domain, key hash, count in two bytes, and each slot's proof before its digest. */
  lemma TranscriptPositions(batch: Batch)
    requires Valid(batch)
    ensures var t, n := Transcript(batch), |batch.proofs|;
            && |t| == 61 + 368 * n
            && (forall k | 0 <= k < 27 :: t[k] == DOMAIN_TEXT[k] as int)
            && t[27..59] == batch.vkHash
            && 0x100 * t[59] as int + t[60] == n
            && forall i | 0 <= i < n ::
                 && t[61 + 368 * i..397 + 368 * i] == batch.proofs[i]
                 && t[397 + 368 * i..429 + 368 * i] == batch.digests[i]
  {
    var t, n := Transcript(batch), |batch.proofs|;
    var slots := Slots(batch, n);
    assert t[61..] == slots;
    assert forall k | 0 <= k < 27 :: t[k] == Domain()[k];
    DomainIsText();
    forall i | 0 <= i < n
      ensures t[61 + 368 * i..397 + 368 * i] == batch.proofs[i] && t[397 + 368 * i..429 + 368 * i] == batch.digests[i]
    {
      SlotsAt(batch, n, i);
      assert (i + 1) * 368 <= n * 368;
      assert t[61 + 368 * i..397 + 368 * i] == slots[i * 368..i * 368 + 336];
      assert t[397 + 368 * i..429 + 368 * i] == slots[i * 368 + 336..i * 368 + 368];
    }
  }

  lemma DomainIsText()
    ensures |DOMAIN_TEXT| == 27 && forall k | 0 <= k < 27 :: Domain()[k] == DOMAIN_TEXT[k] as int
  {
  }

  /** Whatever the reader takes apart is a valid batch whose transcript is the text it read. */
  lemma TranscriptOfRead(transcript: Bytes)
    requires Read(transcript).Some?
    ensures Valid(Read(transcript).value) && Transcript(Read(transcript).value) == transcript
  {
    var batch := Read(transcript).value;
    var n := Count(transcript);
    assert forall i | 0 <= i < n :: GoodSlot(batch, i);
    SlotsOfRead(transcript, batch, n);
    assert transcript[Capacity(0)..Capacity(n)] == transcript[61..];
    assert transcript == transcript[..27] + transcript[27..59] + transcript[59..61] + transcript[61..];
    assert transcript[59..61] == [n / 0x100, n % 0x100];
  }

  lemma {:induction false} SlotsOfRead(transcript: Bytes, batch: Batch, n: nat)
    requires Read(transcript) == Some(batch) && n <= |batch.proofs|
    requires forall i | 0 <= i < |batch.proofs| :: GoodSlot(batch, i)
    ensures Capacity(n) <= |transcript|
    ensures Slots(batch, n) == transcript[Capacity(0)..Capacity(n)]
  {
    assert Capacity(n) <= Capacity(|batch.proofs|);
    if n > 0 {
      SlotsOfRead(transcript, batch, n - 1);
      var start := Capacity(n - 1);
      assert SlotAt(transcript, n - 1) == (batch.proofs[n - 1], batch.digests[n - 1]);
      assert transcript[Capacity(0)..Capacity(n)] ==
             transcript[Capacity(0)..start] + transcript[start..start + PROOF_LEN] + transcript[start + PROOF_LEN..start + SLOT_LEN];
    }
  }

  // ------------------------------------------------------------------------------------------------------- challenges

  /** The scalar field order of BLS12-381. */
  const ORDER: int := 0x73eda753299d7d483339d80809a1d80553bda402fffe5bfeffffffff00000001

  /** BLAKE2b-256 is any function to 32 bytes. */
  ghost predicate IsHash(blake2b: Bytes -> Bytes) {
    forall input :: |blake2b(input)| == 32
  }

  /** The scalar is never zero, is below the order, and is the digest reduced modulo one less than the order, plus one. */
  method Challenge(blake2b: Bytes -> Bytes, input: Bytes) returns (scalar: int)
    ensures 1 <= scalar < ORDER
    ensures BigEndian(blake2b(input)) == BigEndian(blake2b(input)) / (ORDER - 1) * (ORDER - 1) + (scalar - 1)
  {
    var digest := blake2b(input);
    var upper := ORDER - 1;
    var result := BigEndian(digest);
    result := result % upper;
    scalar := result + 1;
  }

  function MergeInput(blake2b: Bytes -> Bytes, transcript: Bytes): Bytes {
    blake2b(transcript) + [0x01]
  }

  method MergeChallengeV2(blake2b: Bytes -> Bytes, transcript: Bytes) returns (scalar: int)
    ensures 1 <= scalar < ORDER
    ensures var whole := BigEndian(blake2b(MergeInput(blake2b, transcript)));
            whole == whole / (ORDER - 1) * (ORDER - 1) + (scalar - 1)
  {
    var digest := blake2b(transcript);
    var withSuffix: Bytes := [];
    withSuffix := withSuffix + digest;
    withSuffix := withSuffix + [0x01];
    assert withSuffix == MergeInput(blake2b, transcript);
    scalar := Challenge(blake2b, withSuffix);
  }

  /** The merge challenge never hashes what some batch's own challenge hashes. */
  lemma MergeInputIsNoTranscript(blake2b: Bytes -> Bytes, transcript: Bytes, batch: Batch)
    requires IsHash(blake2b) && Valid(batch)
    ensures MergeInput(blake2b, transcript) != Transcript(batch)
  {
    assert |Transcript(batch)| >= 61;
    assert |blake2b(transcript)| == 32;
  }
}
