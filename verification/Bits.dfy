/** Unsigned words as sequences of bits, bit 0 being the least significant. */
module Bits {
  function Pow2(k: nat): (p: nat)
    ensures p > 0
  {
    if k == 0 then 1 else 2 * Pow2(k - 1)
  }

  /** Bit `k` of `m`, the test `m & (1 << k)`. */
  predicate Bit(m: nat, k: nat) {
    if k == 0 then m % 2 == 1 else Bit(m / 2, k - 1)
  }

  /** Bitwise or. */
  function Or(a: nat, b: nat): (r: nat) {
    if a == 0 && b == 0 then 0
    else (if a % 2 == 1 || b % 2 == 1 then 1 else 0) + 2 * Or(a / 2, b / 2)
  }

  /** Bitwise and. */
  function And(a: nat, b: nat): (r: nat) {
    if a == 0 || b == 0 then 0
    else (if a % 2 == 1 && b % 2 == 1 then 1 else 0) + 2 * And(a / 2, b / 2)
  }

  /** The number of bits of `m` that are set. */
  function PopCount(m: nat): (c: nat) {
    if m == 0 then 0 else m % 2 + PopCount(m / 2)
  }

  lemma {:induction false} ZeroBit(k: nat)
    ensures !Bit(0, k)
  {
    if k > 0 { ZeroBit(k - 1); }
  }

  lemma {:induction false} OrBit(a: nat, b: nat, k: nat)
    ensures Bit(Or(a, b), k) == (Bit(a, k) || Bit(b, k))
  {
    if a == 0 && b == 0 {
      ZeroBit(k);
    } else if k > 0 {
      OrBit(a / 2, b / 2, k - 1);
      assert Or(a, b) / 2 == Or(a / 2, b / 2);
    }
  }

  lemma {:induction false} AndBit(a: nat, b: nat, k: nat)
    ensures Bit(And(a, b), k) == (Bit(a, k) && Bit(b, k))
  {
    if a == 0 || b == 0 {
      ZeroBit(k);
    } else if k > 0 {
      AndBit(a / 2, b / 2, k - 1);
      assert And(a, b) / 2 == And(a / 2, b / 2);
    }
  }

  lemma {:induction false} Pow2Bit(n: nat, k: nat)
    ensures Bit(Pow2(n), k) == (k == n)
  {
    if n == 0 {
      if k > 0 {
        ZeroBit(k - 1);
      }
    } else if k > 0 {
      Pow2Bit(n - 1, k - 1);
      assert Pow2(n) / 2 == Pow2(n - 1);
    }
  }

  /** A non-zero word has a bit set. */
  lemma {:induction false} SomeBit(m: nat) returns (k: nat)
    requires m > 0
    ensures Bit(m, k)
  {
    if m % 2 == 1 {
      k := 0;
    } else {
      k := SomeBit(m / 2);
      k := k + 1;
    }
  }

  /** A word below 2^n has no bit at or above n. */
  lemma {:induction false} NoHighBit(m: nat, n: nat, k: nat)
    requires m < Pow2(n) && Bit(m, k)
    ensures k < n
  {
    if n == 0 {
      ZeroBit(k);
    } else if k > 0 {
      NoHighBit(m / 2, n - 1, k - 1);
    }
  }

  /** A word of at least 2^n has a bit at or above n. */
  lemma {:induction false} HighBit(m: nat, n: nat) returns (k: nat)
    requires m >= Pow2(n)
    ensures k >= n && Bit(m, k)
  {
    if n == 0 {
      k := SomeBit(m);
    } else {
      k := HighBit(m / 2, n - 1);
      k := k + 1;
    }
  }

  ghost predicate BitsBelow(m: nat, n: nat) {
    forall k: nat | Bit(m, k) :: k < n
  }

  /** Being below 2^n is having bits below n only. */
  lemma BelowPow2(m: nat, n: nat)
    ensures m < Pow2(n) <==> BitsBelow(m, n)
  {
    if m < Pow2(n) {
      forall k: nat | Bit(m, k) ensures k < n { NoHighBit(m, n, k); }
    } else {
      var k := HighBit(m, n);
      assert Bit(m, k);
    }
  }

  /** Words with the same bits are equal. */
  lemma {:induction false} SameBits(a: nat, b: nat)
    requires forall k: nat :: Bit(a, k) == Bit(b, k)
    ensures a == b
  {
    assert Bit(a, 0) == Bit(b, 0);
    if a > 0 || b > 0 {
      forall k: nat ensures Bit(a / 2, k) == Bit(b / 2, k) {
        assert Bit(a, k + 1) == Bit(b, k + 1);
      }
      if a > 1 || b > 1 {
        SameBits(a / 2, b / 2);
      }
    }
  }

  /** No bit is set in both words. */
  ghost predicate NoCommonBit(a: nat, b: nat) {
    forall k: nat | Bit(a, k) :: !Bit(b, k)
  }

  /** The test `a & b` is false exactly when no bit is set in both words. */
  lemma DisjointBits(a: nat, b: nat)
    ensures And(a, b) == 0 <==> NoCommonBit(a, b)
  {
    if And(a, b) > 0 {
      var k := SomeBit(And(a, b));
      AndBit(a, b, k);
    } else {
      forall k: nat | Bit(a, k) ensures !Bit(b, k) {
        AndBit(a, b, k);
        ZeroBit(k);
      }
    }
  }

  lemma {:induction false} OrZero(a: nat, b: nat)
    requires a == 0 || b == 0
    ensures Or(a, b) == a + b
  {
    if a > 0 || b > 0 { OrZero(a / 2, b / 2); }
  }

  /** Counts add over disjoint words. */
  lemma {:induction false} PopCountAdds(a: nat, b: nat)
    requires And(a, b) == 0
    ensures PopCount(Or(a, b)) == PopCount(a) + PopCount(b)
  {
    if a == 0 || b == 0 {
      OrZero(a, b);
    } else {
      assert And(a / 2, b / 2) == 0;
      PopCountAdds(a / 2, b / 2);
      assert Or(a, b) / 2 == Or(a / 2, b / 2);
    }
  }

  /** The or of two words below 2^n is below 2^n. */
  lemma OrBelow(a: nat, b: nat, n: nat)
    requires a < Pow2(n) && b < Pow2(n)
    ensures Or(a, b) < Pow2(n)
  {
    BelowPow2(a, n);
    BelowPow2(b, n);
    forall k: nat | Bit(Or(a, b), k) ensures k < n { OrBit(a, b, k); }
    BelowPow2(Or(a, b), n);
  }
}
