/** Python's bitwise operators on non-negative integers of any size, each given
    by recursion on the bits, and what they mean bit by bit. */
module Bits {

  function Shr(a: nat, count: nat): nat
    decreases count
  {
    if count == 0 then a else Shr(a / 2, count - 1)
  }

  function Shl(a: nat, count: nat): nat
    decreases count
  {
    if count == 0 then a else Shl(2 * a, count - 1)
  }

  function And(a: nat, b: nat): nat {
    if a == 0 || b == 0 then 0
    else (if a % 2 == 1 && b % 2 == 1 then 1 else 0) + 2 * And(a / 2, b / 2)
  }

  function Or(a: nat, b: nat): nat
    decreases a + b
  {
    if a == 0 && b == 0 then 0
    else (if a % 2 == 1 || b % 2 == 1 then 1 else 0) + 2 * Or(a / 2, b / 2)
  }

  function Xor(a: nat, b: nat): nat
    decreases a + b
  {
    if a == 0 && b == 0 then 0
    else (if a % 2 != b % 2 then 1 else 0) + 2 * Xor(a / 2, b / 2)
  }

  predicate Bit(a: nat, i: nat) {
    if i == 0 then a % 2 == 1 else Bit(a / 2, i - 1)
  }

  function Pow2(n: nat): (p: nat)
    ensures p >= 1
  {
    if n == 0 then 1 else 2 * Pow2(n - 1)
  }

  // ----- Bit-by-bit meanings -----

  lemma {:induction false} ZeroBit(i: nat)
    ensures !Bit(0, i)
  {
    if i > 0 {
      ZeroBit(i - 1);
    }
  }

  lemma {:induction false} AndHalf(a: nat, b: nat)
    ensures And(a, b) / 2 == And(a / 2, b / 2) && (And(a, b) % 2 == 1 <==> a % 2 == 1 && b % 2 == 1)
  {
  }

  lemma {:induction false} AndBit(a: nat, b: nat, i: nat)
    ensures Bit(And(a, b), i) <==> Bit(a, i) && Bit(b, i)
    decreases i
  {
    AndHalf(a, b);
    if i > 0 {
      AndBit(a / 2, b / 2, i - 1);
    }
  }

  lemma {:induction false} OrHalf(a: nat, b: nat)
    ensures Or(a, b) / 2 == Or(a / 2, b / 2) && (Or(a, b) % 2 == 1 <==> a % 2 == 1 || b % 2 == 1)
  {
  }

  lemma {:induction false} OrBit(a: nat, b: nat, i: nat)
    ensures Bit(Or(a, b), i) <==> Bit(a, i) || Bit(b, i)
    decreases i
  {
    OrHalf(a, b);
    if i > 0 {
      OrBit(a / 2, b / 2, i - 1);
    }
  }

  lemma {:induction false} XorHalf(a: nat, b: nat)
    ensures Xor(a, b) / 2 == Xor(a / 2, b / 2) && (Xor(a, b) % 2 == 1 <==> a % 2 != b % 2)
  {
  }

  lemma {:induction false} XorBit(a: nat, b: nat, i: nat)
    ensures Bit(Xor(a, b), i) <==> Bit(a, i) != Bit(b, i)
    decreases i
  {
    XorHalf(a, b);
    if i > 0 {
      XorBit(a / 2, b / 2, i - 1);
    }
  }

  lemma {:induction false} ShrBit(a: nat, count: nat, i: nat)
    ensures Bit(Shr(a, count), i) == Bit(a, i + count)
    decreases count
  {
    if count > 0 {
      ShrBit(a / 2, count - 1, i);
    }
  }

  lemma {:induction false} ShlBit(a: nat, count: nat, i: nat)
    ensures Bit(Shl(a, count), i) <==> i >= count && Bit(a, i - count)
    decreases count
  {
    if count > 0 {
      ShlBit(2 * a, count - 1, i);
      assert (2 * a) / 2 == a;
    }
  }

  /** Numbers below 2^n have no bit at or above n. */
  lemma {:induction false} HighBitClear(a: nat, n: nat, i: nat)
    requires a < Pow2(n) && n <= i
    ensures !Bit(a, i)
    decreases n
  {
    if n == 0 {
      ZeroBit(i);
    } else {
      HighBitClear(a / 2, n - 1, i - 1);
    }
  }

  /** A number is its bits. */
  lemma {:induction false} SameBits(a: nat, b: nat, n: nat)
    requires a < Pow2(n) && b < Pow2(n)
    requires forall i: nat :: i < n ==> Bit(a, i) == Bit(b, i)
    ensures a == b
    decreases n
  {
    if n > 0 {
      forall i: nat | i < n - 1 ensures Bit(a / 2, i) == Bit(b / 2, i) {
        assert Bit(a, i + 1) == Bit(b, i + 1);
      }
      SameBits(a / 2, b / 2, n - 1);
      assert Bit(a, 0) == Bit(b, 0);
    }
  }

  lemma {:induction false} XorBelow(a: nat, b: nat, n: nat)
    requires a < Pow2(n) && b < Pow2(n)
    ensures Xor(a, b) < Pow2(n)
    decreases n
  {
    if n > 0 {
      XorBelow(a / 2, b / 2, n - 1);
    }
  }

  lemma {:induction false} XorCancels(a: nat, b: nat)
    ensures Xor(Xor(a, b), b) == a
    decreases a + b
  {
    if a == 0 && b == 0 {
    } else {
      XorCancels(a / 2, b / 2);
      var x := Xor(a, b);
      assert x / 2 == Xor(a / 2, b / 2);
    }
  }

  // ----- Masking is reduction modulo a power of two -----

  lemma AndStep(x: nat, p: nat)
    requires p >= 1
    ensures And(x, 2 * p - 1) == x % 2 + 2 * And(x / 2, p - 1)
  {
    assert (2 * p - 1) % 2 == 1 && (2 * p - 1) / 2 == p - 1;
  }

  lemma DoubleFactor(p: int, q: int)
    ensures (2 * p) * q == 2 * (p * q)
  {
  }

  lemma HalvedOnce(x: nat, p: nat, q: nat, r: nat)
    requires x / 2 == p * q + r && r < p
    ensures x == (2 * p) * q + (x % 2 + 2 * r) && x % 2 + 2 * r < 2 * p
  {
    DoubleFactor(p, q);
  }

  lemma {:induction false} DivideByPow2(x: nat, n: nat)
    ensures x == Pow2(n) * Shr(x, n) + And(x, Pow2(n) - 1)
    ensures And(x, Pow2(n) - 1) < Pow2(n)
    decreases n
  {
    if n > 0 {
      DivideByPow2(x / 2, n - 1);
      AndStep(x, Pow2(n - 1));
      HalvedOnce(x, Pow2(n - 1), Shr(x / 2, n - 1), And(x / 2, Pow2(n - 1) - 1));
    }
  }

  lemma Spread(m: int, k: int)
    requires m > 0
    ensures k >= 1 ==> m * k >= m
    ensures k <= -1 ==> m * k <= -m
  {
  }

  lemma UniqueRemainder(x: nat, m: nat, q: nat, r: nat)
    requires m > 0 && x == m * q + r && r < m
    ensures x % m == r
  {
    Spread(m, q - x / m);
    assert m * (q - x / m) == m * q - m * (x / m);
  }

  lemma MaskIsModulo(x: nat, n: nat)
    ensures And(x, Pow2(n) - 1) == x % Pow2(n)
  {
    DivideByPow2(x, n);
    UniqueRemainder(x, Pow2(n), Shr(x, n), And(x, Pow2(n) - 1));
  }
}
