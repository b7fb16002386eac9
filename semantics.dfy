/** The CHIP-8 machine as a value, and what one instruction does to it.

    `State` holds everything `run_instruction` reads or writes. `Step` is one
    call of `run_instruction`: fetch the big-endian word at PC, advance PC by
    2, decode, and apply the operation of the word's group. Each operation is
    a function from the state after the fetch advance to the state after the
    instruction, written in the order the interpreter writes its fields, so
    that where two writes meet (the flag register VF also being the
    destination) the later write wins as it does there.

    The interpreter never checks the stack cursor, the memory addresses it
    forms or the key index it reads; `Executable` collects those conditions as
    the precondition of a step. */
module Semantics {
  import opened Bits
  import opened Instructions
  import opened Sprites

  const RAM_SIZE := 4096
  const STACK_SIZE := 12
  const REGISTERS := 16
  const KEYS := 16
  const VF: nibble := 0xF
  const FONT_ADDRESS := 0x50
  const START_ADDRESS := 0x200

  /** The 16 hexadecimal digit glyphs, 5 bytes each. */
  const FONT: seq<byte> := [
    0xF0, 0x90, 0x90, 0x90, 0xF0, // 0
    0x20, 0x60, 0x20, 0x20, 0x70, // 1
    0xF0, 0x10, 0xF0, 0x80, 0xF0, // 2
    0xF0, 0x10, 0xF0, 0x10, 0xF0, // 3
    0x90, 0x90, 0xF0, 0x10, 0x10, // 4
    0xF0, 0x80, 0xF0, 0x10, 0xF0, // 5
    0xF0, 0x80, 0xF0, 0x90, 0xF0, // 6
    0xF0, 0x10, 0x20, 0x40, 0x40, // 7
    0xF0, 0x90, 0xF0, 0x90, 0xF0, // 8
    0xF0, 0x90, 0xF0, 0x10, 0xF0, // 9
    0xF0, 0x90, 0xF0, 0x90, 0x90, // A
    0xE0, 0x90, 0xE0, 0x90, 0xE0, // B
    0xF0, 0x80, 0x80, 0x80, 0xF0, // C
    0xE0, 0x90, 0x90, 0x90, 0xE0, // D
    0xF0, 0x80, 0xF0, 0x80, 0xF0, // E
    0xF0, 0x80, 0xF0, 0x80, 0x80  // F
  ]

  /** The machine: memory, display, the call stack with its depth `sp`
      (the distance of the stack cursor from the bottom), the registers
      V0..VF, the index register, the program counter, the two timers and
      the keypad flags. */
  datatype State = State(
    ram: seq<byte>,
    display: seq<bool>,
    stack: seq<u16>,
    sp: nat,
    V: seq<byte>,
    I: u16,
    PC: u16,
    delayTimer: byte,
    soundTimer: byte,
    keypad: seq<bool>)

  /** The fixed sizes of the interpreter's arrays, and the depth within the
      stack. */
  predicate WellFormed(s: State)
  {
    |s.ram| == RAM_SIZE && |s.display| == PIXELS && |s.stack| == STACK_SIZE &&
    s.sp <= STACK_SIZE && |s.V| == REGISTERS && |s.keypad| == KEYS
  }

  function SetV(s: State, x: nibble, v: byte): State
    requires WellFormed(s)
  {
    s.(V := s.V[x := v])
  }

  // ---------------------------------------------------------------------
  // Fetch

  predicate CanFetch(s: State)
  {
    WellFormed(s) && s.PC + 1 < RAM_SIZE
  }

  /** `(ram[PC] << 8) | ram[PC + 1]`. */
  function Fetch(s: State): u16
    requires CanFetch(s)
  {
    Word(s.ram[s.PC], s.ram[s.PC + 1])
  }

  /** `PC += 2`, before the instruction is decoded. */
  function Advance(s: State): State
  {
    s.(PC := Wrap16(s.PC as int + 2))
  }

  // ---------------------------------------------------------------------
  // Operations

  /** 00E0: every pixel off. */
  function ClearScreen(s: State): State
  {
    s.(display := seq(PIXELS, _ => false))
  }

  /** 00EE: pop the return address into PC. */
  function Return(s: State): State
    requires WellFormed(s) && s.sp > 0
  {
    s.(sp := s.sp - 1, PC := s.stack[s.sp - 1])
  }

  /** 2nnn: push the (already advanced) PC and jump to nnn. */
  function Call(s: State, nnn: u16): State
    requires WellFormed(s) && s.sp < STACK_SIZE
  {
    s.(stack := s.stack[s.sp := s.PC], sp := s.sp + 1, PC := nnn)
  }

  /** The skip instructions: `PC += 2` when the condition holds. */
  function SkipIf(s: State, cond: bool): State
  {
    if cond then s.(PC := Wrap16(s.PC as int + 2)) else s
  }

  /** 8xyN. The flag-setting cases write VF first and then compute Vx from
      the registers as they are after that write. In 8xy4 the sum is stored
      into the 8-bit Vx before the carry test, so the test `Vx > 255` never
      holds and VF is always cleared. Any other N does nothing. */
  function Arithmetic(s: State, x: nibble, y: nibble, n: nibble): State
    requires WellFormed(s)
  {
    var vx, vy := s.V[x], s.V[y];
    if n == 0x0 then SetV(s, x, vy)
    else if n == 0x1 then SetV(s, x, Or8(vx, vy))
    else if n == 0x2 then SetV(s, x, And8(vx, vy))
    else if n == 0x3 then SetV(s, x, Xor8(vx, vy))
    else if n == 0x4 then SetV(SetV(s, x, Wrap8(vx as int + vy)), VF, 0)
    else if n == 0x5 then
      var t := SetV(s, VF, if vx > vy then 1 else 0);
      SetV(t, x, Wrap8(t.V[x] as int - t.V[y]))
    else if n == 0x6 then
      var t := SetV(s, VF, vx % 2);
      SetV(t, x, t.V[x] / 2)
    else if n == 0x7 then
      var t := SetV(s, VF, if vy > vx then 1 else 0);
      SetV(t, x, Wrap8(t.V[y] as int - t.V[x]))
    else if n == 0xE then
      var t := SetV(s, VF, vx / 0x80);
      SetV(t, x, Wrap8(t.V[x] as int * 2))
    else s
  }

  /** The draw instruction reads ram[I..I+n]; with n = 0 its row loop does
      not run and it reads nothing, whatever I is. */
  predicate SpriteInMemory(s: State, n: nibble)
  {
    n == 0 || s.I + n <= RAM_SIZE
  }

  /** The n sprite rows the draw instruction reads. */
  function SpriteAt(s: State, n: nibble): (sprite: seq<byte>)
    requires WellFormed(s) && SpriteInMemory(s, n)
    ensures |sprite| == n
    ensures forall row :: 0 <= row < n ==> sprite[row] == s.ram[s.I + row]
  {
    if n == 0 then [] else s.ram[s.I..s.I + n]
  }

  /** Dxyn: XOR the sprite at ram[I..I+n] onto the display at (Vx, Vy); VF
      is 1 when a pixel that was on is toggled, else 0. */
  function Draw(s: State, x: nibble, y: nibble, n: nibble): State
    requires WellFormed(s) && SpriteInMemory(s, n)
  {
    var vx, vy, sprite := s.V[x], s.V[y], SpriteAt(s, n);
    s.(display := Toggle(s.display, Covered(sprite, vx, vy, n * 8)),
       V := s.V[VF := if Collides(s.display, sprite, vx, vy, n * 8) then 1 else 0])
  }

  /** The lowest index of a key that is down, or |keys| when none is. */
  function LowestKeyDown(keys: seq<bool>): (i: nat)
    ensures i <= |keys|
    ensures i < |keys| ==> keys[i]
    ensures forall j :: 0 <= j < i ==> !keys[j]
  {
    if |keys| == 0 then 0
    else if keys[0] then 0
    else 1 + LowestKeyDown(keys[1..])
  }

  /** Fx0A: store the lowest key that is down in Vx, or, when none is, step
      PC back so that the instruction runs again. */
  function WaitKey(s: State, x: nibble): State
    requires WellFormed(s)
  {
    var k := LowestKeyDown(s.keypad);
    if k < KEYS then SetV(s, x, k) else s.(PC := Wrap16(s.PC as int - 2))
  }

  /** Fx33: hundreds, tens and units of v at I, I + 1 and I + 2. */
  function StoreBcd(s: State, v: byte): State
    requires WellFormed(s) && s.I + 2 < RAM_SIZE
  {
    var units := v % 10;
    var rest := v / 10;
    var tens := rest % 10;
    var hundreds := rest / 10;
    s.(ram := s.ram[s.I + 2 := units][s.I + 1 := tens][s.I := hundreds])
  }

  /** Fx55: V0..Vx into ram[I..I+x]; I is not changed. */
  function StoreRegisters(s: State, x: nibble): State
    requires WellFormed(s) && s.I + x < RAM_SIZE
  {
    s.(ram := s.ram[..s.I] + s.V[..x + 1] + s.ram[s.I + x + 1..])
  }

  /** Fx65: ram[I..I+x] into V0..Vx; I is not changed. */
  function LoadRegisters(s: State, x: nibble): State
    requires WellFormed(s) && s.I + x < RAM_SIZE
  {
    s.(V := s.ram[s.I..s.I + x + 1] + s.V[x + 1..])
  }

  /** The Fxkk group. Fx29 sets I to Vx * 5, which does not add the font's
      base address 0x50. Any other kk does nothing. */
  function Misc(s: State, x: nibble, kk: byte): State
    requires WellFormed(s) && MiscDefined(s, x, kk)
  {
    if kk == 0x07 then SetV(s, x, s.delayTimer)
    else if kk == 0x0A then WaitKey(s, x)
    else if kk == 0x15 then s.(delayTimer := s.V[x])
    else if kk == 0x18 then s.(soundTimer := s.V[x])
    else if kk == 0x1E then s.(I := Wrap16(s.I as int + s.V[x]))
    else if kk == 0x29 then s.(I := s.V[x] as int * 5)
    else if kk == 0x33 then StoreBcd(s, s.V[x])
    else if kk == 0x55 then StoreRegisters(s, x)
    else if kk == 0x65 then LoadRegisters(s, x)
    else s
  }

  predicate MiscDefined(s: State, x: nibble, kk: byte)
  {
    (kk == 0x33 ==> s.I + 2 < RAM_SIZE) &&
    (kk == 0x55 || kk == 0x65 ==> s.I + x < RAM_SIZE)
  }

  /** What the interpreter relies on without checking: a call needs a free
      stack slot, a return a non-empty stack, the draw, BCD and register
      block instructions addresses inside memory, and the key-skip
      instructions a key number below 16 in Vx. */
  predicate Executable(s: State, inst: Instruction)
    requires WellFormed(s)
  {
    var g := inst.Group();
    (g == 0x0 && inst.kk == 0xEE ==> s.sp > 0) &&
    (g == 0x2 ==> s.sp < STACK_SIZE) &&
    (g == 0xD ==> SpriteInMemory(s, inst.n)) &&
    (g == 0xE && (inst.kk == 0x9E || inst.kk == 0xA1) ==> s.V[inst.x] < KEYS) &&
    (g == 0xF ==> MiscDefined(s, inst.x, inst.kk))
  }

  /** One decoded instruction applied to the state after the fetch advance. */
  function Execute(s: State, inst: Instruction, rnd: byte): (r: State)
    requires WellFormed(s) && Executable(s, inst)
    ensures WellFormed(r)
  {
    var g, x, y, n, kk, nnn := inst.Group(), inst.x, inst.y, inst.n, inst.kk, inst.nnn;
    if g == 0x0 then
      (if kk == 0xE0 then ClearScreen(s) else if kk == 0xEE then Return(s) else s)
    else if g == 0x1 then s.(PC := nnn)
    else if g == 0x2 then Call(s, nnn)
    else if g == 0x3 then SkipIf(s, s.V[x] == kk)
    else if g == 0x4 then SkipIf(s, s.V[x] != kk)
    else if g == 0x5 then SkipIf(s, s.V[x] == s.V[y])
    else if g == 0x6 then SetV(s, x, kk)
    else if g == 0x7 then SetV(s, x, Wrap8(s.V[x] as int + kk))
    else if g == 0x8 then Arithmetic(s, x, y, n)
    else if g == 0x9 then SkipIf(s, s.V[x] != s.V[y])
    else if g == 0xA then s.(I := nnn)
    else if g == 0xB then s.(PC := Wrap16(nnn as int + s.V[0]))
    else if g == 0xC then SetV(s, x, And8(rnd, kk))
    else if g == 0xD then Draw(s, x, y, n)
    else if g == 0xE then
      (if kk == 0x9E then SkipIf(s, s.keypad[s.V[x]])
       else if kk == 0xA1 then SkipIf(s, !s.keypad[s.V[x]])
       else s)
    else Misc(s, x, kk)
  }

  predicate CanStep(s: State)
  {
    CanFetch(s) && Executable(Advance(s), Decode(Fetch(s)))
  }

  /** One call of the interpreter's `run_instruction`; `rnd` is the byte the
      random number generator yields for Cxkk. */
  function Step(s: State, rnd: byte): (r: State)
    requires CanStep(s)
    ensures WellFormed(r)
  {
    Execute(Advance(s), Decode(Fetch(s)), rnd)
  }

  // ---------------------------------------------------------------------
  // Start-up

  /** The memory image after the font is copied to 0x50 and the program to
      0x200. */
  function LoadedRam(ram: seq<byte>, rom: seq<byte>): seq<byte>
    requires |ram| == RAM_SIZE && |rom| <= RAM_SIZE - START_ADDRESS
  {
    ram[..FONT_ADDRESS] + FONT + ram[FONT_ADDRESS + |FONT|..START_ADDRESS] +
    rom + ram[START_ADDRESS + |rom|..]
  }

  /** `initialize`: PC to the start address, an empty stack, the font and
      the program bytes copied into memory. */
  function Initialize(s: State, rom: seq<byte>): State
    requires WellFormed(s) && |rom| <= RAM_SIZE - START_ADDRESS
  {
    s.(ram := LoadedRam(s.ram, rom), PC := START_ADDRESS, sp := 0)
  }
}
