/** Unsigned machine integers and the bitwise operators the interpreter uses.

    The interpreter works on `uint8_t` and `uint16_t` values. Here they are
    integers in range; every place where C++ would wrap or truncate applies an
    explicit `% 0x100` or `% 0x1_0000`. Bitwise AND, OR and XOR are defined
    bit by bit on the low `w` bits, least significant bit first, so that they
    can be reasoned about with ordinary integer arithmetic. */
module Bits {

  type byte = x: int | 0 <= x < 0x100
  type u16 = x: int | 0 <= x < 0x1_0000

  function Pow2(k: nat): (r: nat)
    ensures r >= 1
  {
    if k == 0 then 1 else 2 * Pow2(k - 1)
  }

  /** C++ keeps the low 8 bits when it stores into a `uint8_t`. */
  function Wrap8(v: int): byte
  {
    v % 0x100
  }

  /** C++ keeps the low 16 bits when it stores into a `uint16_t`. */
  function Wrap16(v: int): u16
  {
    v % 0x1_0000
  }

  /** The byte operators `a & b`, `a | b` and `a ^ b`. */
  function And8(a: byte, b: byte): byte
  {
    Pow2Values();
    And(a, b, 8)
  }

  function Or8(a: byte, b: byte): byte
  {
    Pow2Values();
    Or(a, b, 8)
  }

  function Xor8(a: byte, b: byte): byte
  {
    Pow2Values();
    Xor(a, b, 8)
  }

  /** `a >> k`. */
  function ShiftRight(a: nat, k: nat): nat
  {
    if k == 0 then a else ShiftRight(a / 2, k - 1)
  }

  /** Bit k of a (bit 0 is the least significant). */
  predicate Bit(a: nat, k: nat)
  {
    if k == 0 then a % 2 == 1 else Bit(a / 2, k - 1)
  }

  /** `a & b` on w-bit values. */
  function And(a: nat, b: nat, w: nat): (r: nat)
    ensures r < Pow2(w)
  {
    if w == 0 then 0
    else 2 * And(a / 2, b / 2, w - 1) + (if a % 2 == 1 && b % 2 == 1 then 1 else 0)
  }

  /** `a | b` on w-bit values. */
  function Or(a: nat, b: nat, w: nat): (r: nat)
    ensures r < Pow2(w)
  {
    if w == 0 then 0
    else 2 * Or(a / 2, b / 2, w - 1) + (if a % 2 == 1 || b % 2 == 1 then 1 else 0)
  }

  /** `a ^ b` on w-bit values. */
  function Xor(a: nat, b: nat, w: nat): (r: nat)
    ensures r < Pow2(w)
  {
    if w == 0 then 0
    else 2 * Xor(a / 2, b / 2, w - 1) + (if (a % 2 == 1) != (b % 2 == 1) then 1 else 0)
  }

  /** The powers of two the interpreter's field widths use. */
  lemma Pow2Values()
    ensures Pow2(4) == 0x10 && Pow2(7) == 0x80 && Pow2(8) == 0x100
    ensures Pow2(12) == 0x1000 && Pow2(16) == 0x1_0000
  {
    assert Pow2(4) == 0x10 by {
      assert Pow2(2) == 4;
    }
    assert Pow2(8) == 0x100 by {
      assert Pow2(6) == 0x40;
    }
    assert Pow2(12) == 0x1000 by {
      assert Pow2(10) == 0x400;
    }
    assert Pow2(16) == 0x1_0000 by {
      assert Pow2(14) == 0x4000;
    }
  }

  /** Each result bit of AND is the conjunction of the operand bits. */
  lemma {:induction false} AndBit(a: nat, b: nat, w: nat, k: nat)
    requires k < w
    ensures Bit(And(a, b, w), k) == (Bit(a, k) && Bit(b, k))
  {
    if k > 0 {
      AndBit(a / 2, b / 2, w - 1, k - 1);
    }
  }

  /** Each result bit of OR is the disjunction of the operand bits. */
  lemma {:induction false} OrBit(a: nat, b: nat, w: nat, k: nat)
    requires k < w
    ensures Bit(Or(a, b, w), k) == (Bit(a, k) || Bit(b, k))
  {
    if k > 0 {
      OrBit(a / 2, b / 2, w - 1, k - 1);
    }
  }

  /** Each result bit of XOR says whether the operand bits differ. */
  lemma {:induction false} XorBit(a: nat, b: nat, w: nat, k: nat)
    requires k < w
    ensures Bit(Xor(a, b, w), k) == (Bit(a, k) != Bit(b, k))
  {
    if k > 0 {
      XorBit(a / 2, b / 2, w - 1, k - 1);
    }
  }

  /** AND with zero is zero; OR with zero keeps a w-bit value. */
  lemma {:induction false} AndZero(a: nat, w: nat)
    ensures And(a, 0, w) == 0
  {
    if w > 0 {
      AndZero(a / 2, w - 1);
    }
  }

  lemma {:induction false} OrZero(a: nat, w: nat)
    requires a < Pow2(w)
    ensures Or(a, 0, w) == a
  {
    if w > 0 {
      OrZero(a / 2, w - 1);
    }
  }

  lemma ModUnique(a: int, m: int, q: int, r: int)
    requires m > 0 && a == m * q + r && 0 <= r < m
    ensures a % m == r && a / m == q
  {
    var q', r' := a / m, a % m;
    var d := q - q';
    assert m * q == m * q' + m * d;
    assert m * d == r' - r;
    if d > 0 {
      MulAtLeast(m, d);
    } else if d < 0 {
      MulAtLeast(m, -d);
    }
  }

  lemma MulAtLeast(m: int, d: int)
    requires m > 0 && d > 0
    ensures m * d >= m
  {
    if d > 1 {
      MulAtLeast(m, d - 1);
      assert m * d == m * (d - 1) + m;
    }
  }

  /** The k low bits of a, assembled bit by bit. */
  function LowBits(a: nat, k: nat): (r: nat)
    ensures r < Pow2(k)
  {
    if k == 0 then 0 else 2 * LowBits(a / 2, k - 1) + a % 2
  }

  /** Masking with 2^k - 1 keeps the k low bits: `a & (2^k - 1) == a % 2^k`. */
  lemma LowMask(a: nat, k: nat, w: nat)
    requires k <= w
    ensures And(a, Pow2(k) - 1, w) == a % Pow2(k)
  {
    MaskIsLowBits(a, k, w);
    LowBitsSplit(a, k);
    ShiftRightDiv(a, k);
    ModUnique(a, Pow2(k), a / Pow2(k), LowBits(a, k));
  }

  lemma {:induction false} MaskIsLowBits(a: nat, k: nat, w: nat)
    requires k <= w
    ensures And(a, Pow2(k) - 1, w) == LowBits(a, k)
  {
    if k == 0 {
      AndZero(a, w);
    } else {
      var m := Pow2(k) - 1;
      assert m % 2 == 1 && m / 2 == Pow2(k - 1) - 1;
      MaskIsLowBits(a / 2, k - 1, w - 1);
    }
  }

  /** `a == (a >> k) * 2^k + (a & (2^k - 1))`. */
  lemma {:induction false} LowBitsSplit(a: nat, k: nat)
    ensures a == Pow2(k) * ShiftRight(a, k) + LowBits(a, k)
  {
    if k > 0 {
      LowBitsSplit(a / 2, k - 1);
      var s := ShiftRight(a / 2, k - 1);
      assert Pow2(k) * s == 2 * (Pow2(k - 1) * s);
    }
  }

  /** The bit-by-bit shift is division by a power of two: `a >> k == a / 2^k`. */
  lemma ShiftRightDiv(a: nat, k: nat)
    ensures ShiftRight(a, k) == a / Pow2(k)
  {
    LowBitsSplit(a, k);
    ModUnique(a, Pow2(k), ShiftRight(a, k), LowBits(a, k));
  }

  /** A single-bit mask selects that bit: `a & 2^j` is 2^j or 0. */
  lemma {:induction false} SingleBitMask(a: nat, j: nat, w: nat)
    requires j < w
    ensures And(a, Pow2(j), w) == if Bit(a, j) then Pow2(j) else 0
  {
    if j == 0 {
      AndZero(a / 2, w - 1);
    } else {
      SingleBitMask(a / 2, j - 1, w - 1);
    }
  }

  /** Shifting a power of two right moves its one bit down. */
  lemma {:induction false} ShiftRightPow2(i: nat, k: nat)
    requires k <= i
    ensures ShiftRight(Pow2(i), k) == Pow2(i - k)
  {
    if k > 0 {
      assert Pow2(i) / 2 == Pow2(i - 1);
      ShiftRightPow2(i - 1, k - 1);
    }
  }

  /** Shifting left by k and ORing in a k-bit value is concatenation:
      `(hi << k) | lo == hi * 2^k + lo`. */
  lemma {:induction false} ShiftOr(hi: nat, lo: nat, k: nat, w: nat)
    requires lo < Pow2(k) && k <= w && hi * Pow2(k) < Pow2(w)
    ensures Or(hi * Pow2(k), lo, w) == hi * Pow2(k) + lo
  {
    if k == 0 {
      OrZero(hi, w);
    } else {
      var p := Pow2(k - 1);
      assert hi * Pow2(k) == 2 * (hi * p);
      assert (hi * Pow2(k)) / 2 == hi * p;
      assert (hi * Pow2(k)) % 2 == 0;
      ShiftOr(hi, lo / 2, k - 1, w - 1);
    }
  }
}
