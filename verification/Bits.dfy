/** Unsigned words as sets of bits. */
module Bits {

  /** Bit `i` of `x`. */
  predicate Bit(x: nat, i: nat) {
    if i == 0 then x % 2 == 1 else Bit(x / 2, i - 1)
  }

  /** 1u << i */
  function Pow2(i: nat): (p: nat)
    ensures p > 0
  {
    if i == 0 then 1 else 2 * Pow2(i - 1)
  }

  /** a | b */
  function BitOr(a: nat, b: nat): nat {
    if a == 0 && b == 0 then 0
    else 2 * BitOr(a / 2, b / 2) + if a % 2 == 1 || b % 2 == 1 then 1 else 0
  }

  /** a & ~b */
  function BitAndNot(a: nat, b: nat): nat {
    if a == 0 then 0
    else 2 * BitAndNot(a / 2, b / 2) + if a % 2 == 1 && b % 2 == 0 then 1 else 0
  }

  lemma {:induction false} ZeroHasNoBits(i: nat)
    ensures !Bit(0, i)
  {
    if i > 0 { ZeroHasNoBits(i - 1); }
  }

  lemma {:induction false} OrBits(a: nat, b: nat, i: nat)
    ensures Bit(BitOr(a, b), i) <==> Bit(a, i) || Bit(b, i)
  {
    if a == 0 && b == 0 {
      ZeroHasNoBits(i);
    } else if i > 0 {
      OrBits(a / 2, b / 2, i - 1);
    }
  }

  lemma {:induction false} AndNotBits(a: nat, b: nat, i: nat)
    ensures Bit(BitAndNot(a, b), i) <==> Bit(a, i) && !Bit(b, i)
  {
    if a == 0 {
      ZeroHasNoBits(i);
    } else if i > 0 {
      AndNotBits(a / 2, b / 2, i - 1);
    }
  }

  lemma {:induction false} Pow2Bits(i: nat, j: nat)
    ensures Bit(Pow2(i), j) <==> i == j
  {
    if i == 0 {
      if j > 0 { ZeroHasNoBits(j - 1); }
    } else if j > 0 {
      Pow2Bits(i - 1, j - 1);
    }
  }

  ghost predicate SameBits(a: nat, b: nat) {
    forall i: nat :: Bit(a, i) <==> Bit(b, i)
  }

  /** A word is determined by its bits. */
  lemma {:induction false} SameBitsEqual(a: nat, b: nat)
    requires SameBits(a, b)
    ensures a == b
    decreases a + b
  {
    if a + b > 0 {
      forall i: nat
        ensures Bit(a / 2, i) <==> Bit(b / 2, i)
      {
        assert Bit(a, i + 1) <==> Bit(b, i + 1);
      }
      SameBitsEqual(a / 2, b / 2);
      assert Bit(a, 0) <==> Bit(b, 0);
    }
  }

  lemma BelowPow2(x: nat, n: nat)
    ensures x < Pow2(n) <==> x == 0 || HighBit(x) < n
  {
    if x > 0 {
      var h := HighBit(x);
      HighBitIsHighest(x);
      if h < n {
        Pow2Monotone(h + 1, n);
      } else {
        Pow2Monotone(n, h);
      }
    }
  }

  lemma {:induction false} Pow2Monotone(i: nat, j: nat)
    requires i <= j
    ensures Pow2(i) <= Pow2(j)
  {
    if i < j { Pow2Monotone(i, j - 1); }
  }

  /** Position of the highest set bit: the width less one, less the number of leading zeros. */
  function HighBit(x: nat): nat
    requires x > 0
  {
    if x == 1 then 0 else 1 + HighBit(x / 2)
  }

  lemma {:induction false} HighBitIsHighest(x: nat)
    requires x > 0
    ensures Pow2(HighBit(x)) <= x < Pow2(HighBit(x) + 1)
    ensures Bit(x, HighBit(x))
    ensures forall i: nat :: Bit(x, i) ==> i <= HighBit(x)
  {
    if x > 1 {
      HighBitIsHighest(x / 2);
    }
    forall i: nat | Bit(x, i)
      ensures i <= HighBit(x)
    {
      if x == 1 {
        if i > 0 { ZeroHasNoBits(i - 1); }
      } else if i > 0 {
        assert Bit(x / 2, i - 1);
      }
    }
  }

  /** Removing a set bit subtracts its weight. */
  lemma {:induction false} ClearBit(x: nat, i: nat)
    requires Bit(x, i)
    ensures x >= Pow2(i) && BitAndNot(x, Pow2(i)) == x - Pow2(i)
    decreases i
  {
    if i > 0 {
      if x == 0 { ZeroHasNoBits(i); }
      ClearBit(x / 2, i - 1);
    } else {
      AndNotZero(x / 2);
    }
  }

  lemma {:induction false} AndNotZero(x: nat)
    ensures BitAndNot(x, 0) == x
  {
    if x > 0 { AndNotZero(x / 2); }
  }
}
