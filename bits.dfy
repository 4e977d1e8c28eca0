/**
 * Non-negative integers seen as little-endian bit strings: powers of two,
 * single bits, bitwise `^` and `|`, and `int.bit_count()`, as Python computes
 * them on non-negative operands.
 */
module Bits {

  /** 2^n, i.e. `1 << n`. */
  function Pow2(n: nat): (r: nat)
    ensures r >= 1
  {
    if n == 0 then 1 else 2 * Pow2(n - 1)
  }

  /** Multiplying by a non-negative factor keeps the order. */
  lemma MulMono(a: int, b: int, k: int)
    requires a <= b && k >= 0
    ensures a * k <= b * k
  {
  }

  /** Bit i of x; bit 0 is the least significant. */
  function Bit(x: nat, i: nat): (b: nat)
    ensures b <= 1
  {
    if i == 0 then x % 2 else Bit(x / 2, i - 1)
  }

  /** `a ^ b` on non-negative integers. */
  function Xor(a: nat, b: nat): nat
    decreases a + b
  {
    if a == 0 && b == 0 then 0
    else 2 * Xor(a / 2, b / 2) + (if a % 2 == b % 2 then 0 else 1)
  }

  /** `a | b` on non-negative integers. */
  function Or(a: nat, b: nat): nat
    decreases a + b
  {
    if a == 0 && b == 0 then 0
    else 2 * Or(a / 2, b / 2) + (if a % 2 == 1 || b % 2 == 1 then 1 else 0)
  }

  /** `x.bit_count()`: the number of one bits of x. */
  function PopCount(x: nat): nat
  {
    if x == 0 then 0 else x % 2 + PopCount(x / 2)
  }

  /** The bits of `2 * q + d` are d followed by the bits of q. */
  lemma BitOfDouble(q: nat, d: nat, i: nat)
    requires d <= 1
    ensures Bit(2 * q + d, i) == if i == 0 then d else Bit(q, i - 1)
  {
    assert (2 * q + d) % 2 == d && (2 * q + d) / 2 == q;
  }

  /** Xor is bitwise "differs". */
  lemma {:induction false} XorBit(a: nat, b: nat, i: nat)
    ensures Bit(Xor(a, b), i) == if Bit(a, i) == Bit(b, i) then 0 else 1
    decreases a + b
  {
    if a == 0 && b == 0 {
      ZeroBits(i);
    } else {
      BitOfDouble(Xor(a / 2, b / 2), if a % 2 == b % 2 then 0 else 1, i);
      if i > 0 {
        XorBit(a / 2, b / 2, i - 1);
      }
    }
  }

  /** Or is bitwise "either is set". */
  lemma {:induction false} OrBit(a: nat, b: nat, i: nat)
    ensures Bit(Or(a, b), i) == if Bit(a, i) == 1 || Bit(b, i) == 1 then 1 else 0
    decreases a + b
  {
    if a == 0 && b == 0 {
      ZeroBits(i);
    } else {
      BitOfDouble(Or(a / 2, b / 2), if a % 2 == 1 || b % 2 == 1 then 1 else 0, i);
      if i > 0 {
        OrBit(a / 2, b / 2, i - 1);
      }
    }
  }

  /** Every bit of 0 is clear. */
  lemma {:induction false} ZeroBits(i: nat)
    ensures Bit(0, i) == 0
  {
    if i > 0 {
      ZeroBits(i - 1);
    }
  }

  lemma {:induction false} XorSelf(a: nat)
    ensures Xor(a, a) == 0
    decreases a
  {
    if a != 0 {
      XorSelf(a / 2);
    }
  }

  lemma {:induction false} XorCommutes(a: nat, b: nat)
    ensures Xor(a, b) == Xor(b, a)
    decreases a + b
  {
    if a != 0 || b != 0 {
      XorCommutes(a / 2, b / 2);
    }
  }

  /** `a ^ b == 0` exactly when a == b. */
  lemma {:induction false} XorZeroIff(a: nat, b: nat)
    ensures Xor(a, b) == 0 <==> a == b
    decreases a + b
  {
    if a == b {
      XorSelf(a);
    } else if a % 2 == b % 2 {
      XorZeroIff(a / 2, b / 2);
    }
  }

  /** Xor of two n-bit numbers is an n-bit number. */
  lemma {:induction false} XorBelow(a: nat, b: nat, n: nat)
    requires a < Pow2(n) && b < Pow2(n)
    ensures Xor(a, b) < Pow2(n)
    decreases n
  {
    if n > 0 && (a != 0 || b != 0) {
      XorBelow(a / 2, b / 2, n - 1);
    }
  }

  /** Only 0 has no one bits. */
  lemma PopCountZeroIff(x: nat)
    ensures PopCount(x) == 0 <==> x == 0
  {
    if x != 0 && x % 2 == 0 {
      assert x / 2 != 0;
      assert PopCount(x / 2) != 0 by { PopCountZeroIff(x / 2); }
    }
  }

  /** An n-bit number has at most n one bits. */
  lemma {:induction false} PopCountAtMost(x: nat, n: nat)
    requires x < Pow2(n)
    ensures PopCount(x) <= n
    decreases n
  {
    if x != 0 {
      PopCountAtMost(x / 2, n - 1);
    }
  }

  /** Setting bit k of a number below 2^k adds 2^k. */
  lemma {:induction false} OrHighBit(a: nat, k: nat)
    requires a < Pow2(k)
    ensures Or(a, Pow2(k)) == a + Pow2(k)
    decreases k
  {
    if k > 0 {
      OrHighBit(a / 2, k - 1);
      assert Pow2(k) / 2 == Pow2(k - 1) && Pow2(k) % 2 == 0;
    }
  }
}
