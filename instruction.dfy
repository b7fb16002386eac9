/** Fetching and decoding one CHIP-8 instruction word. */
module Instructions {
  import opened Bits

  type nibble = x: int | 0 <= x < 0x10

  /** The decoded view of the current opcode: the 12-bit address `nnn`, the
      8-bit immediate `kk`, the 4-bit field `n` and the register selectors
      `x` and `y`. */
  datatype Instruction = Instruction(opcode: u16, nnn: u16, kk: byte, n: nibble, x: nibble, y: nibble)
  {
    /** The operation group the interpreter dispatches on, `(opcode >> 12) & 0xF`. */
    function Group(): nibble
    {
      opcode / 0x1000
    }
  }

  /** The big-endian word made of the bytes at PC and PC + 1. */
  function Word(hi: byte, lo: byte): (w: u16)
    ensures w / 0x100 == hi && w % 0x100 == lo
  {
    hi * 0x100 + lo
  }

  /** Splits an opcode into its fields. A right shift of a non-negative value
      is a division by a power of two and a mask with 2^k - 1 keeps the
      remainder modulo 2^k; `DecodeMatchesMasks` proves the second. */
  function Decode(op: u16): (r: Instruction)
    ensures r.opcode == op
    ensures op == r.Group() * 0x1000 + r.nnn
    ensures r.nnn == r.x * 0x100 + r.kk
    ensures r.kk == r.y * 0x10 + r.n
  {
    AddressSplits(op);
    ImmediateSplits(op);
    Instruction(op, op % 0x1000, op % 0x100, op % 0x10, (op / 0x100) % 0x10, (op / 0x10) % 0x10)
  }

  lemma AddressSplits(op: u16)
    ensures op % 0x1000 == ((op / 0x100) % 0x10) * 0x100 + op % 0x100
  {
  }

  lemma ImmediateSplits(op: u16)
    ensures op % 0x100 == ((op / 0x10) % 0x10) * 0x10 + op % 0x10
  {
  }

  /** Decoding is injective: the fields determine the opcode. */
  lemma DecodeInjective(a: u16, b: u16)
    requires Decode(a).Group() == Decode(b).Group() && Decode(a).nnn == Decode(b).nnn
    ensures a == b
  {
  }

  /** The fields are exactly the source's masks and shifts:
      `nnn = op & 0x0FFF`, `kk = op & 0x00FF`, `n = op & 0x000F`,
      `x = (op >> 8) & 0x000F`, `y = (op >> 4) & 0x000F` and the group is
      `(op >> 12) & 0x000F`. */
  lemma DecodeMatchesMasks(op: u16)
    ensures Decode(op).nnn == And(op, 0x0FFF, 16)
    ensures Decode(op).kk == And(op, 0x00FF, 16)
    ensures Decode(op).n == And(op, 0x000F, 16)
    ensures Decode(op).x == And(op / Pow2(8), 0x000F, 16)
    ensures Decode(op).y == And(op / Pow2(4), 0x000F, 16)
    ensures Decode(op).Group() == And(op / Pow2(12), 0x000F, 16)
  {
    Pow2Values();
    var r := Decode(op);
    assert r.nnn == op % Pow2(12) && r.kk == op % Pow2(8) && r.n == op % Pow2(4);
    assert r.x == (op / Pow2(8)) % Pow2(4) && r.y == (op / Pow2(4)) % Pow2(4);
    assert r.Group() == (op / Pow2(12)) % Pow2(4);
    LowFieldMask(op, 12);
    LowFieldMask(op, 8);
    LowFieldMask(op, 4);
    LowFieldMask(op / Pow2(8), 4);
    LowFieldMask(op / Pow2(4), 4);
    LowFieldMask(op / Pow2(12), 4);
  }

  lemma LowFieldMask(a: nat, k: nat)
    requires k <= 16
    ensures And(a, Pow2(k) - 1, 16) == a % Pow2(k)
  {
    LowMask(a, k, 16);
  }

  /** The fetch `(ram[PC] << 8) | ram[PC + 1]` is the big-endian word. */
  lemma WordIsShiftOr(hi: byte, lo: byte)
    ensures Word(hi, lo) == Or(hi * Pow2(8), lo, 16)
  {
    Pow2Values();
    ShiftOr(hi, lo, 8, 16);
  }
}
