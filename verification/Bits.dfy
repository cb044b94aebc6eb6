/** The bitwise `&` of unsigned integers, and what the two masks used by the ceremony code test. */
module Bits {
  import opened Common

  function And(a: nat, b: nat): nat {
    if a == 0 || b == 0 then 0
    else 2 * And(a / 2, b / 2) + (if a % 2 == 1 && b % 2 == 1 then 1 else 0)
  }

  function Pow2(k: nat): (p: nat)
    ensures p > 0
  {
    if k == 0 then 1 else 2 * Pow2(k - 1)
  }

  lemma {:induction false} AndIdempotent(a: nat)
    ensures And(a, a) == a
  {
    if a > 0 {
      AndIdempotent(a / 2);
    }
  }

  lemma {:induction false} Pow2Monotonic(j: nat, k: nat)
    requires j < k
    ensures Pow2(j) < Pow2(k)
  {
    if j + 1 < k {
      Pow2Monotonic(j, k - 1);
    }
  }

  /** `n & (n-1)` vanishes on exactly the powers of two. */
  lemma {:induction false} ClearLowestBitTest(n: nat)
    requires n >= 1
    ensures And(n, n - 1) == 0 <==> exists k: nat :: n == Pow2(k)
  {
    if n == 1 {
      assert n == Pow2(0);
    } else if n % 2 == 1 {
      assert (n - 1) / 2 == n / 2;
      AndIdempotent(n / 2);
      forall k: nat ensures n != Pow2(k) {
        if k > 0 {
          assert Pow2(k) == 2 * Pow2(k - 1);
        }
      }
    } else {
      ClearLowestBitTest(n / 2);
      assert (n - 1) / 2 == n / 2 - 1;
      if And(n / 2, n / 2 - 1) == 0 {
        var k: nat :| n / 2 == Pow2(k);
        assert n == Pow2(k + 1);
      } else {
        forall k: nat ensures n != Pow2(k) {
          if k > 0 {
            assert n / 2 != Pow2(k - 1);
          }
        }
      }
    }
  }

  /** A mask whose low bit is clear drops the low bit and masks the rest. */
  lemma AndEvenMask(a: nat, m: nat)
    ensures And(a, 2 * m) == 2 * And(a / 2, m)
  {
    assert 2 * m / 2 == m && 2 * m % 2 == 0;
  }

  lemma {:induction false} AndLowMask(x: nat, k: nat)
    requires x < Pow2(k)
    ensures And(x, Pow2(k) - 1) == x
  {
    if k > 0 && x > 0 {
      AndLowMask(x / 2, k - 1);
      assert (Pow2(k) - 1) / 2 == Pow2(k - 1) - 1;
    }
  }

  lemma AndMaskTimesFour(a: nat, m: nat)
    ensures And(a, 4 * m) == 4 * And(a / 4, m)
  {
    var b := a / 2;
    AndEvenMask(a, 2 * m);
    AndEvenMask(b, m);
    assert b / 2 == a / 4;
  }

  /** Masking a byte with 0xe0 keeps its top three bits in place. */
  lemma TopThreeBits(b: Byte)
    ensures And(b, 0xe0) == 32 * (b / 32)
  {
    var c := b / 4;
    var d := c / 4;
    AndMaskTimesFour(b, 56);
    AndMaskTimesFour(c, 14);
    AndEvenMask(d, 7);
    assert d / 2 == b / 32;
    assert Pow2(3) == 8;
    AndLowMask(b / 32, 3);
  }
}
