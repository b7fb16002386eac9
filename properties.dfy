/** What the instruction cycle guarantees, stated over the value semantics in
    `Semantics`: how the fetched bytes become fields, how control moves, what
    each arithmetic form leaves in Vx and VF, what a draw does to the display
    and the collision flag, and how the memory instructions copy. */
module Properties {
  import opened Bits
  import opened Instructions
  import opened Sprites
  import opened Semantics

  // ---------------------------------------------------------------------
  // Fetch and decode

  /** The high byte at PC holds the group and x, the low byte at PC + 1 holds
      kk, which is y and n. */
  lemma FetchFields(s: State)
    requires CanFetch(s)
    ensures Decode(Fetch(s)).Group() == s.ram[s.PC] / 0x10
    ensures Decode(Fetch(s)).x == s.ram[s.PC] % 0x10
    ensures Decode(Fetch(s)).kk == s.ram[s.PC + 1]
    ensures Decode(Fetch(s)).y == s.ram[s.PC + 1] / 0x10
    ensures Decode(Fetch(s)).n == s.ram[s.PC + 1] % 0x10
  {
    var hi, lo := s.ram[s.PC], s.ram[s.PC + 1];
    var r := Decode(Fetch(s));
    assert Fetch(s) == hi as int * 0x100 + lo;
    ModUnique(Fetch(s), 0x100, hi, lo);
    assert r.kk == lo;
    assert r.Group() * 0x10 + r.x == hi;
    ModUnique(hi, 0x10, r.Group(), r.x);
    ModUnique(lo, 0x10, r.y, r.n);
  }

  // ---------------------------------------------------------------------
  // Control flow

  /** The instructions that neither jump, skip nor wait leave the stack alone
      and move on to the next word. */
  predicate StraightLine(inst: Instruction)
  {
    var g := inst.Group();
    g == 0x6 || g == 0x7 || g == 0x8 || g == 0xA || g == 0xC || g == 0xD ||
    (g == 0x0 && inst.kk == 0xE0) || (g == 0xF && inst.kk != 0x0A)
  }

  lemma StraightLineAdvancesPC(s: State, rnd: byte)
    requires CanStep(s) && StraightLine(Decode(Fetch(s)))
    ensures Step(s, rnd).PC == Wrap16(s.PC as int + 2)
    ensures Step(s, rnd).stack == s.stack && Step(s, rnd).sp == s.sp
  {
  }

  /** 1nnn jumps to nnn; Bnnn to nnn + V0, which never needs to wrap. */
  lemma JumpTargets(s: State, rnd: byte)
    requires CanStep(s)
    ensures Decode(Fetch(s)).Group() == 0x1 ==> Step(s, rnd).PC == Decode(Fetch(s)).nnn
    ensures Decode(Fetch(s)).Group() == 0xB ==>
      Step(s, rnd).PC == Decode(Fetch(s)).nnn + s.V[0]
  {
    var inst := Decode(Fetch(s));
    assert inst.nnn < 0x1000;
  }

  /** A return pops exactly what a call pushed. */
  lemma ReturnUndoesCall(s: State, nnn: u16)
    requires WellFormed(s) && s.sp < STACK_SIZE
    ensures Return(Call(s, nnn)) == s.(stack := s.stack[s.sp := s.PC])
  {
  }

  /** 2nnn followed, in the subroutine, by 00EE: the subroutine is entered at
      nnn one level deeper, and the return comes back to the word after the
      call with the depth restored. The stack slot keeps the return address. */
  lemma CallThenReturn(s: State, rnd1: byte, rnd2: byte)
    requires CanStep(s) && Decode(Fetch(s)).Group() == 0x2
    requires CanStep(Step(s, rnd1)) && Fetch(Step(s, rnd1)) == 0x00EE
    ensures Step(s, rnd1).PC == Decode(Fetch(s)).nnn && Step(s, rnd1).sp == s.sp + 1
    ensures Step(Step(s, rnd1), rnd2) ==
      s.(PC := Wrap16(s.PC as int + 2), stack := s.stack[s.sp := Wrap16(s.PC as int + 2)])
  {
    var s1 := Step(s, rnd1);
    var ret := Decode(0x00EE);
    assert ret.Group() == 0x0 && ret.kk == 0xEE;
    assert Step(s1, rnd2) == Return(Advance(s1));
  }

  /** The skip instructions and the condition each tests. */
  predicate IsSkip(inst: Instruction)
  {
    var g := inst.Group();
    g == 0x3 || g == 0x4 || g == 0x5 || g == 0x9 ||
    (g == 0xE && (inst.kk == 0x9E || inst.kk == 0xA1))
  }

  predicate SkipCondition(s: State, inst: Instruction)
    requires WellFormed(s) && IsSkip(inst)
    requires inst.Group() == 0xE ==> s.V[inst.x] < KEYS
  {
    var g, vx := inst.Group(), s.V[inst.x];
    if g == 0x3 then vx == inst.kk
    else if g == 0x4 then vx != inst.kk
    else if g == 0x5 then vx == s.V[inst.y]
    else if g == 0x9 then vx != s.V[inst.y]
    else if inst.kk == 0x9E then s.keypad[vx]
    else !s.keypad[vx]
  }

  /** A skip changes nothing but PC, which moves on by 4 when the condition
      holds and by 2 otherwise. */
  lemma SkipsOnlyMovePC(s: State, rnd: byte)
    requires CanStep(s) && IsSkip(Decode(Fetch(s)))
    ensures Step(s, rnd) ==
      s.(PC := Wrap16(s.PC as int + if SkipCondition(s, Decode(Fetch(s))) then 4 else 2))
  {
  }

  /** Opcodes the interpreter does not recognise in groups 0, 8, E and F. */
  predicate Unassigned(inst: Instruction)
  {
    var g, kk, n := inst.Group(), inst.kk, inst.n;
    (g == 0x0 && kk != 0xE0 && kk != 0xEE) ||
    (g == 0x8 && !(n <= 0x7 || n == 0xE)) ||
    (g == 0xE && kk != 0x9E && kk != 0xA1) ||
    (g == 0xF && !(kk == 0x07 || kk == 0x0A || kk == 0x15 || kk == 0x18 ||
                   kk == 0x1E || kk == 0x29 || kk == 0x33 || kk == 0x55 || kk == 0x65))
  }

  /** An unrecognised opcode is skipped over: only PC changes. */
  lemma UnknownOpcodesOnlyAdvance(s: State, rnd: byte)
    requires CanStep(s) && Unassigned(Decode(Fetch(s)))
    ensures Step(s, rnd) == s.(PC := Wrap16(s.PC as int + 2))
  {
  }

  // ---------------------------------------------------------------------
  // Arithmetic and logic (8xyN, 7xkk, Cxkk)

  /** Only Vx and VF can change. */
  lemma ArithmeticTouchesOnlyVxAndVF(s: State, x: nibble, y: nibble, n: nibble)
    requires WellFormed(s)
    ensures Arithmetic(s, x, y, n).(V := s.V) == s
    ensures |Arithmetic(s, x, y, n).V| == REGISTERS
    ensures forall r :: 0 <= r < REGISTERS && r != x && r != VF ==>
      Arithmetic(s, x, y, n).V[r] == s.V[r]
  {
  }

  /** 8xy1, 8xy2 and 8xy3 work bit by bit. */
  lemma LogicOpsBitwise(s: State, x: nibble, y: nibble, k: nat)
    requires WellFormed(s) && k < 8
    ensures Bit(Arithmetic(s, x, y, 0x1).V[x], k) == (Bit(s.V[x], k) || Bit(s.V[y], k))
    ensures Bit(Arithmetic(s, x, y, 0x2).V[x], k) == (Bit(s.V[x], k) && Bit(s.V[y], k))
    ensures Bit(Arithmetic(s, x, y, 0x3).V[x], k) == (Bit(s.V[x], k) != Bit(s.V[y], k))
  {
    OrBit(s.V[x], s.V[y], 8, k);
    AndBit(s.V[x], s.V[y], 8, k);
    XorBit(s.V[x], s.V[y], 8, k);
  }

  /** 8xy4 keeps the low 8 bits of the sum in Vx and always clears VF: the
      sum is stored into the 8-bit register before the carry test, so the
      carry is lost. */
  lemma AddClearsFlag(s: State, x: nibble, y: nibble)
    requires WellFormed(s)
    ensures Arithmetic(s, x, y, 0x4).V[VF] == 0
    ensures x != VF ==>
      var sum := s.V[x] as int + s.V[y];
      Arithmetic(s, x, y, 0x4).V[x] == if sum < 0x100 then sum else sum - 0x100
  {
  }

  /** 0xFF + 0x01 in V0 leaves V0 = 0 and VF = 0, not VF = 1. */
  lemma AddCarryExample(s: State)
    requires WellFormed(s) && s.V[0] == 0xFF && s.V[1] == 0x01
    ensures Arithmetic(s, 0, 1, 0x4).V[0] == 0
    ensures Arithmetic(s, 0, 1, 0x4).V[VF] == 0
  {
  }

  /** 8xy5 and 8xy7 with x, y other than F: VF is 1 exactly when the
      subtraction does not borrow (strictly greater, as the interpreter
      compares), and Vx is the difference modulo 256. */
  lemma SubtractFlags(s: State, x: nibble, y: nibble)
    requires WellFormed(s) && x != VF && y != VF
    ensures Arithmetic(s, x, y, 0x5).V[VF] == if s.V[x] > s.V[y] then 1 else 0
    ensures Arithmetic(s, x, y, 0x5).V[x] ==
      var d := s.V[x] as int - s.V[y]; if d >= 0 then d else d + 0x100
    ensures Arithmetic(s, x, y, 0x7).V[VF] == if s.V[y] > s.V[x] then 1 else 0
    ensures Arithmetic(s, x, y, 0x7).V[x] ==
      var d := s.V[y] as int - s.V[x]; if d >= 0 then d else d + 0x100
  {
  }

  /** 8xy6 and 8xyE with x other than F: the bit shifted out lands in VF. */
  lemma ShiftFlags(s: State, x: nibble, y: nibble)
    requires WellFormed(s) && x != VF
    ensures Arithmetic(s, x, y, 0x6).V[x] * 2 + Arithmetic(s, x, y, 0x6).V[VF] == s.V[x]
    ensures Arithmetic(s, x, y, 0x6).V[VF] <= 1
    ensures Arithmetic(s, x, y, 0xE).V[VF] as int * 0x100 + Arithmetic(s, x, y, 0xE).V[x] == 2 * (s.V[x] as int)
    ensures Arithmetic(s, x, y, 0xE).V[VF] <= 1
  {
    var v := s.V[x];
    var r6, rE := Arithmetic(s, x, y, 0x6), Arithmetic(s, x, y, 0xE);
    assert r6.V[x] == v / 2 && r6.V[VF] == v % 2;
    assert rE.V[x] == Wrap8(v as int * 2) && rE.V[VF] == v / 0x80;
    ModUnique(v as int * 2, 0x100, v / 0x80, 2 * (v % 0x80));
  }

  /** With VF itself as the destination the flag is written first and then
      used as the operand, so the flag is overwritten: for every y, 8Fy6
      always leaves 0 and 8FyE leaves 0 or 2. For y other than F, 8Fy5
      subtracts Vy from the flag and 8Fy7 subtracts the flag from Vy; with
      y = F both operands are the new flag, so 8FF5 and 8FF7 leave 0. */
  lemma FlagDestination(s: State, y: nibble)
    requires WellFormed(s)
    ensures Arithmetic(s, VF, y, 0x6).V[VF] == 0
    ensures Arithmetic(s, VF, y, 0xE).V[VF] == 2 * (s.V[VF] / 0x80)
    ensures y != VF ==>
      Arithmetic(s, VF, y, 0x5).V[VF] == Wrap8((if s.V[VF] > s.V[y] then 1 else 0) - s.V[y] as int)
    ensures y != VF ==>
      Arithmetic(s, VF, y, 0x7).V[VF] == Wrap8(s.V[y] as int - (if s.V[y] > s.V[VF] then 1 else 0))
    ensures Arithmetic(s, VF, VF, 0x5).V[VF] == 0 && Arithmetic(s, VF, VF, 0x7).V[VF] == 0
  {
  }

  /** With VF as the second operand of 8xF5 or 8xF7, the subtraction reads
      the flag just written rather than the old VF. */
  lemma FlagOperand(s: State, x: nibble)
    requires WellFormed(s) && x != VF
    ensures Arithmetic(s, x, VF, 0x5).V[x] ==
      Wrap8(s.V[x] as int - (if s.V[x] > s.V[VF] then 1 else 0))
    ensures Arithmetic(s, x, VF, 0x7).V[x] ==
      Wrap8((if s.V[VF] > s.V[x] then 1 else 0) - s.V[x] as int)
  {
  }

  /** 7xkk adds modulo 256 and, unlike 8xy4, leaves VF alone. */
  lemma AddImmediateWraps(s: State, rnd: byte)
    requires CanStep(s) && Decode(Fetch(s)).Group() == 0x7 && Decode(Fetch(s)).x != VF
    ensures Step(s, rnd).V[Decode(Fetch(s)).x] as int + 0x100 * (if s.V[Decode(Fetch(s)).x] as int + Decode(Fetch(s)).kk >= 0x100 then 1 else 0)
            == s.V[Decode(Fetch(s)).x] as int + Decode(Fetch(s)).kk
    ensures Step(s, rnd).V[VF] == s.V[VF]
  {
  }

  /** Cxkk: a bit of the result is set exactly when it is set both in the
      random byte and in kk. */
  lemma RandomMasked(s: State, rnd: byte, k: nat)
    requires CanStep(s) && Decode(Fetch(s)).Group() == 0xC && k < 8
    ensures Bit(Step(s, rnd).V[Decode(Fetch(s)).x], k) == (Bit(rnd, k) && Bit(Decode(Fetch(s)).kk, k))
  {
    AndBit(rnd, Decode(Fetch(s)).kk, 8, k);
  }

  // ---------------------------------------------------------------------
  // Drawing (Dxyn)

  /** A pixel changes exactly when some sprite row and column has its bit set
      and lands on it; memory and the other registers are untouched. */
  lemma DrawToggles(s: State, x: nibble, y: nibble, n: nibble)
    requires WellFormed(s) && SpriteInMemory(s, n)
    ensures Draw(s, x, y, n).(display := s.display, V := s.V) == s
    ensures forall r :: 0 <= r < REGISTERS && r != VF ==> Draw(s, x, y, n).V[r] == s.V[r]
    ensures forall p :: 0 <= p < PIXELS ==>
      (Draw(s, x, y, n).display[p] != s.display[p] <==>
       exists row, col :: 0 <= row < n && 0 <= col < 8 &&
         SpriteBit(s.ram[s.I + row], col) && PixelIndex(s.V[x], s.V[y], row, col) == p)
  {
    var sprite := SpriteAt(s, n);
    forall p | 0 <= p < PIXELS
      ensures Draw(s, x, y, n).display[p] != s.display[p] <==>
        exists row, col :: 0 <= row < n && 0 <= col < 8 &&
          SpriteBit(s.ram[s.I + row], col) && PixelIndex(s.V[x], s.V[y], row, col) == p
    {
      SpriteCovers(sprite, s.V[x], s.V[y], p);
      assert forall row :: 0 <= row < n ==> sprite[row] == s.ram[s.I + row];
    }
  }

  /** VF is 1 when the draw turned some pixel off, and 0 otherwise. */
  lemma DrawCollision(s: State, x: nibble, y: nibble, n: nibble)
    requires WellFormed(s) && SpriteInMemory(s, n)
    ensures Draw(s, x, y, n).V[VF] <= 1
    ensures Draw(s, x, y, n).V[VF] == 1 <==>
      exists p :: 0 <= p < PIXELS && s.display[p] && !Draw(s, x, y, n).display[p]
  {
    var r := Draw(s, x, y, n);
    var sprite, vx, vy := SpriteAt(s, n), s.V[x], s.V[y];
    var hits := Covered(sprite, vx, vy, n * 8);
    CollidesIff(s.display, sprite, vx, vy, n * 8);
    if r.V[VF] == 1 {
      var p :| p in hits && p < PIXELS && s.display[p];
      assert !r.display[p];
    }
    if exists p :: 0 <= p < PIXELS && s.display[p] && !r.display[p] {
      var p :| 0 <= p < PIXELS && s.display[p] && !r.display[p];
      assert p in hits;
    }
  }

  /** Dxy0 draws no rows: it runs whatever I holds, even past the end of
      memory, clears VF and leaves the display alone. */
  lemma EmptySpriteDrawsNothing(s: State, rnd: byte)
    requires CanFetch(s) && Decode(Fetch(s)).Group() == 0xD && Decode(Fetch(s)).n == 0
    ensures CanStep(s)
    ensures Step(s, rnd) == s.(PC := Wrap16(s.PC as int + 2), V := s.V[VF := 0])
  {
    var inst := Decode(Fetch(s));
    assert Covered(SpriteAt(Advance(s), 0), s.V[inst.x], s.V[inst.y], 0) == {};
    assert Toggle(s.display, {}) == s.display;
  }

  /** Drawing on a blank display never reports a collision. */
  lemma DrawOnBlank(s: State, x: nibble, y: nibble, n: nibble)
    requires WellFormed(s) && SpriteInMemory(s, n)
    requires forall p :: 0 <= p < PIXELS ==> !s.display[p]
    ensures Draw(s, x, y, n).V[VF] == 0
  {
    CollidesIff(s.display, SpriteAt(s, n), s.V[x], s.V[y], n * 8);
  }

  /** Drawing the same sprite at the same place twice restores the display
      (the registers naming the position must not be VF, which the first
      draw overwrites). */
  lemma DrawTwiceRestores(s: State, x: nibble, y: nibble, n: nibble)
    requires WellFormed(s) && SpriteInMemory(s, n) && x != VF && y != VF
    ensures Draw(Draw(s, x, y, n), x, y, n).display == s.display
  {
    var s1 := Draw(s, x, y, n);
    assert s1.V[x] == s.V[x] && s1.V[y] == s.V[y] && SpriteAt(s1, n) == SpriteAt(s, n);
    ToggleTwice(s.display, Covered(SpriteAt(s, n), s.V[x], s.V[y], n * 8));
  }

  // ---------------------------------------------------------------------
  // The Fxkk group

  /** Fx0A with some key down stores the lowest such key in Vx and moves on;
      with none down PC stays put. */
  lemma WaitKeyTakesLowest(s: State, x: nibble)
    requires WellFormed(s)
    ensures (exists k :: 0 <= k < KEYS && s.keypad[k]) ==>
      var r := WaitKey(s, x);
      r.V[x] < KEYS && s.keypad[r.V[x]] &&
      (forall k :: 0 <= k < r.V[x] ==> !s.keypad[k]) &&
      r.PC == s.PC && r.(V := s.V) == s
    ensures (forall k :: 0 <= k < KEYS ==> !s.keypad[k]) ==>
      WaitKey(s, x) == s.(PC := Wrap16(s.PC as int - 2))
  {
    var i := LowestKeyDown(s.keypad);
    if exists k :: 0 <= k < KEYS && s.keypad[k] {
      var k :| 0 <= k < KEYS && s.keypad[k];
      assert i <= k;
    }
  }

  /** A whole cycle of Fx0A with no key down changes nothing at all: the
      same instruction runs again on the next cycle. */
  lemma WaitKeyBlocks(s: State, rnd: byte)
    requires CanStep(s) && Decode(Fetch(s)).Group() == 0xF && Decode(Fetch(s)).kk == 0x0A
    requires forall k :: 0 <= k < KEYS ==> !s.keypad[k]
    ensures Step(s, rnd) == s
  {
    WaitKeyTakesLowest(Advance(s), Decode(Fetch(s)).x);
  }

  /** Fx33 stores three decimal digits whose value is Vx; no other byte
      changes. */
  lemma BcdDigits(s: State, v: byte)
    requires WellFormed(s) && s.I + 2 < RAM_SIZE
    ensures StoreBcd(s, v).ram[s.I] <= 2
    ensures StoreBcd(s, v).ram[s.I + 1] <= 9 && StoreBcd(s, v).ram[s.I + 2] <= 9
    ensures 100 * StoreBcd(s, v).ram[s.I] + 10 * StoreBcd(s, v).ram[s.I + 1] +
            StoreBcd(s, v).ram[s.I + 2] == v
    ensures |StoreBcd(s, v).ram| == RAM_SIZE
    ensures forall a :: 0 <= a < RAM_SIZE && !(s.I <= a <= s.I + 2) ==>
      StoreBcd(s, v).ram[a] == s.ram[a]
    ensures StoreBcd(s, v).(ram := s.ram) == s
  {
    var rest := v / 10;
    assert v == 10 * rest + v % 10;
    assert rest == 10 * (rest / 10) + rest % 10;
  }

  /** Fx29 sets I to 5 * Vx. For a digit the five bytes there lie wholly
      below the font at 0x50, so the sprite read is not the digit's glyph. */
  lemma DigitAddressBelowFont(s: State, x: nibble)
    requires WellFormed(s) && s.V[x] < 0x10
    ensures Misc(s, x, 0x29).I == 5 * s.V[x]
    ensures Misc(s, x, 0x29).I + 5 <= FONT_ADDRESS
  {
  }

  /** Fx55 writes V0..Vx to ram[I..I+x] and leaves every other byte, and
      everything else, as it was. */
  lemma StoreRegistersCopies(s: State, x: nibble)
    requires WellFormed(s) && s.I + x < RAM_SIZE
    ensures |StoreRegisters(s, x).ram| == RAM_SIZE
    ensures forall i :: 0 <= i <= x ==> StoreRegisters(s, x).ram[s.I + i] == s.V[i]
    ensures forall a :: 0 <= a < RAM_SIZE && !(s.I <= a <= s.I + x) ==>
      StoreRegisters(s, x).ram[a] == s.ram[a]
    ensures StoreRegisters(s, x).(ram := s.ram) == s
  {
  }

  /** Fx65 reads V0..Vx from ram[I..I+x] and leaves the other registers, and
      everything else, as they were. */
  lemma LoadRegistersCopies(s: State, x: nibble)
    requires WellFormed(s) && s.I + x < RAM_SIZE
    ensures |LoadRegisters(s, x).V| == REGISTERS
    ensures forall i :: 0 <= i <= x ==> LoadRegisters(s, x).V[i] == s.ram[s.I + i]
    ensures forall r :: x < r < REGISTERS ==> LoadRegisters(s, x).V[r] == s.V[r]
    ensures LoadRegisters(s, x).(V := s.V) == s
  {
  }

  /** Loading right after storing, with the same I and x, changes nothing. */
  lemma StoreThenLoad(s: State, x: nibble)
    requires WellFormed(s) && s.I + x < RAM_SIZE
    ensures LoadRegisters(StoreRegisters(s, x), x) == StoreRegisters(s, x)
  {
    var s1 := StoreRegisters(s, x);
    assert s1.ram[s.I..s.I + x + 1] == s.V[..x + 1];
    assert s.V[..x + 1] + s.V[x + 1..] == s.V;
  }

  /** Storing right after loading, with the same I and x, changes nothing. */
  lemma LoadThenStore(s: State, x: nibble)
    requires WellFormed(s) && s.I + x < RAM_SIZE
    ensures StoreRegisters(LoadRegisters(s, x), x) == LoadRegisters(s, x)
  {
    var s1 := LoadRegisters(s, x);
    assert s1.V[..x + 1] == s.ram[s.I..s.I + x + 1];
    assert s.ram[..s.I] + s.ram[s.I..s.I + x + 1] + s.ram[s.I + x + 1..] == s.ram;
  }

  // ---------------------------------------------------------------------
  // Start-up

  /** `initialize` puts the font at 0x50 and the program at 0x200, leaves the
      other bytes and the registers alone, and starts at 0x200 with an empty
      stack. */
  lemma InitializeLoads(s: State, rom: seq<byte>)
    requires WellFormed(s) && |rom| <= RAM_SIZE - START_ADDRESS
    ensures WellFormed(Initialize(s, rom))
    ensures forall i :: 0 <= i < |FONT| ==> Initialize(s, rom).ram[FONT_ADDRESS + i] == FONT[i]
    ensures forall i :: 0 <= i < |rom| ==> Initialize(s, rom).ram[START_ADDRESS + i] == rom[i]
    ensures forall a ::
      (0 <= a < RAM_SIZE && !(FONT_ADDRESS <= a < FONT_ADDRESS + |FONT|) &&
       !(START_ADDRESS <= a < START_ADDRESS + |rom|)) ==>
      Initialize(s, rom).ram[a] == s.ram[a]
    ensures Initialize(s, rom).PC == START_ADDRESS && Initialize(s, rom).sp == 0
    ensures Initialize(s, rom).V == s.V && Initialize(s, rom).I == s.I
  {
    var ram := Initialize(s, rom).ram;
    assert |FONT| == 80;
    forall i | 0 <= i < |FONT|
      ensures ram[FONT_ADDRESS + i] == FONT[i]
    {
    }
    forall i | 0 <= i < |rom|
      ensures ram[START_ADDRESS + i] == rom[i]
    {
    }
  }

  /** The first instruction fetched after loading a program of at least two
      bytes is the program's first word. */
  lemma FirstFetch(s: State, rom: seq<byte>)
    requires WellFormed(s) && 2 <= |rom| <= RAM_SIZE - START_ADDRESS
    ensures CanFetch(Initialize(s, rom))
    ensures Fetch(Initialize(s, rom)) == rom[0] as int * 0x100 + rom[1]
  {
    InitializeLoads(s, rom);
    assert Initialize(s, rom).ram[START_ADDRESS] == rom[0];
    assert Initialize(s, rom).ram[START_ADDRESS + 1] == rom[1];
  }
}
