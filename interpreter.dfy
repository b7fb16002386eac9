/** The interpreter object: the machine's fixed-size arrays and registers,
    updated in place one instruction at a time. Every method is proved
    against the value semantics in `Semantics`: `Snapshot()` reads the
    object's state as a `Semantics.State`. */
module Interpreter {
  import opened Bits
  import opened Instructions
  import opened Sprites
  import opened Semantics

  /** Whether the front end keeps calling the interpreter. Only the
      constructor sets it; the instruction cycle never reads it. */
  datatype Mode = Quit | Running | Paused

  /** The display and registers the draw loops leave are those of
      `Semantics.Draw`. */
  lemma DrawnState(s: State, x: nibble, y: nibble, n: nibble, d: seq<bool>, v: seq<byte>)
    requires WellFormed(s) && SpriteInMemory(s, n) && |d| == PIXELS
    requires forall p :: 0 <= p < PIXELS ==>
      d[p] == (s.display[p] != (p in Covered(SpriteAt(s, n), s.V[x], s.V[y], n * 8)))
    requires v == s.V[VF := if Collides(s.display, SpriteAt(s, n), s.V[x], s.V[y], n * 8) then 1 else 0]
    ensures s.(display := d, V := v) == Semantics.Draw(s, x, y, n)
  {
    var toggled := Toggle(s.display, Covered(SpriteAt(s, n), s.V[x], s.V[y], n * 8));
    assert forall p :: 0 <= p < PIXELS ==> d[p] == toggled[p];
    assert d == toggled;
  }

  class Chip8 {
    var mode: Mode
    const ram: array<byte>
    const display: array<bool>
    const stack: array<u16>
    var sp: nat
    const V: array<byte>
    var I: u16
    var PC: u16
    var delayTimer: byte
    var soundTimer: byte
    const keypad: array<bool>
    var inst: Instruction

    ghost predicate Valid()
      reads this
    {
      ram.Length == RAM_SIZE && display.Length == PIXELS &&
      stack.Length == STACK_SIZE && sp <= STACK_SIZE &&
      V.Length == REGISTERS && keypad.Length == KEYS &&
      ram != V && display != keypad
    }

    ghost function Snapshot(): State
      reads this, ram, display, stack, V, keypad
    {
      State(ram[..], display[..], stack[..], sp, V[..], I, PC, delayTimer, soundTimer, keypad[..])
    }

    /** Zeroed memory, display, registers, timers and keypad; PC at the start
        address and an empty stack. The stack slots themselves are left
        uninitialised, as the interpreter leaves them. */
    constructor ()
      ensures Valid() && WellFormed(Snapshot())
      ensures fresh(ram) && fresh(display) && fresh(stack) && fresh(V) && fresh(keypad)
      ensures mode == Running && PC == START_ADDRESS && sp == 0
      ensures I == 0 && delayTimer == 0 && soundTimer == 0
      ensures forall a :: 0 <= a < RAM_SIZE ==> ram[a] == 0
      ensures forall p :: 0 <= p < PIXELS ==> !display[p]
      ensures forall i :: 0 <= i < REGISTERS ==> V[i] == 0
      ensures forall k :: 0 <= k < KEYS ==> !keypad[k]
    {
      mode := Running;
      PC := START_ADDRESS;
      sp := 0;
      ram := new byte[RAM_SIZE](_ => 0);
      display := new bool[PIXELS](_ => false);
      stack := new u16[STACK_SIZE];
      V := new byte[REGISTERS](_ => 0);
      I := 0;
      delayTimer := 0;
      soundTimer := 0;
      keypad := new bool[KEYS](_ => false);
      inst := Decode(0);
    }

    /** The font and program copy of `initialize`: `rom` is the bytes read
        from the program file. */
    method Initialize(rom: seq<byte>)
      requires Valid() && |rom| <= RAM_SIZE - START_ADDRESS
      modifies this, ram
      ensures Valid() && mode == old(mode) && inst == old(inst)
      ensures Snapshot() == Semantics.Initialize(old(Snapshot()), rom)
    {
      PC := START_ADDRESS;
      sp := 0;
      forall i | 0 <= i < |FONT| {
        ram[FONT_ADDRESS + i] := FONT[i];
      }
      forall i | 0 <= i < |rom| {
        ram[START_ADDRESS + i] := rom[i];
      }
      ghost var loaded := LoadedRam(old(ram[..]), rom);
      assert forall a :: 0 <= a < RAM_SIZE ==> ram[a] == loaded[a];
      assert ram[..] == loaded;
    }

    /** `run_instruction`: fetch, advance PC, decode and execute. */
    method Step(rnd: byte)
      requires Valid() && CanStep(Snapshot())
      modifies this, ram, display, stack, V
      ensures Valid() && mode == old(mode)
      ensures inst == Decode(Fetch(old(Snapshot())))
      ensures Snapshot() == Semantics.Step(old(Snapshot()), rnd)
    {
      var opcode := ram[PC] as int * 0x100 + ram[PC + 1];
      PC := Wrap16(PC as int + 2);
      inst := Decode(opcode);
      Execute(rnd);
    }

    method Execute(rnd: byte)
      requires Valid() && Executable(Snapshot(), inst)
      modifies this, ram, display, stack, V
      ensures Valid() && mode == old(mode) && inst == old(inst)
      ensures Snapshot() == Semantics.Execute(old(Snapshot()), inst, rnd)
    {
      var g, x, y, n, kk, nnn := inst.Group(), inst.x, inst.y, inst.n, inst.kk, inst.nnn;
      if g == 0x0 {
        if kk == 0xE0 {
          ClearScreen();
        } else if kk == 0xEE {
          sp := sp - 1;
          PC := stack[sp];
        }
      } else if g == 0x1 {
        PC := nnn;
      } else if g == 0x2 {
        stack[sp] := PC;
        sp := sp + 1;
        PC := nnn;
      } else if g == 0x3 {
        if V[x] == kk { PC := Wrap16(PC as int + 2); }
      } else if g == 0x4 {
        if V[x] != kk { PC := Wrap16(PC as int + 2); }
      } else if g == 0x5 {
        if V[x] == V[y] { PC := Wrap16(PC as int + 2); }
      } else if g == 0x6 {
        V[x] := kk;
      } else if g == 0x7 {
        V[x] := Wrap8(V[x] as int + kk);
      } else if g == 0x8 {
        Arithmetic(x, y, n);
      } else if g == 0x9 {
        if V[x] != V[y] { PC := Wrap16(PC as int + 2); }
      } else if g == 0xA {
        I := nnn;
      } else if g == 0xB {
        PC := Wrap16(nnn as int + V[0]);
      } else if g == 0xC {
        V[x] := And8(rnd, kk);
      } else if g == 0xD {
        Draw(x, y, n);
      } else if g == 0xE {
        if kk == 0x9E {
          if keypad[V[x]] { PC := Wrap16(PC as int + 2); }
        } else if kk == 0xA1 {
          if !keypad[V[x]] { PC := Wrap16(PC as int + 2); }
        }
      } else {
        Misc(x, kk);
      }
    }

    /** 00E0. */
    method ClearScreen()
      requires Valid()
      modifies display
      ensures Snapshot() == Semantics.ClearScreen(old(Snapshot()))
    {
      forall p | 0 <= p < display.Length {
        display[p] := false;
      }
      assert display[..] == seq(PIXELS, _ => false);
    }

    /** 8xyN. */
    method Arithmetic(x: nibble, y: nibble, n: nibble)
      requires Valid()
      modifies V
      ensures Snapshot() == Semantics.Arithmetic(old(Snapshot()), x, y, n)
    {
      if n == 0x0 {
        V[x] := V[y];
      } else if n == 0x1 {
        V[x] := Or8(V[x], V[y]);
      } else if n == 0x2 {
        V[x] := And8(V[x], V[y]);
      } else if n == 0x3 {
        V[x] := Xor8(V[x], V[y]);
      } else if n == 0x4 {
        V[x] := Wrap8(V[x] as int + V[y]);
        V[VF] := 0;
      } else if n == 0x5 {
        V[VF] := if V[x] > V[y] then 1 else 0;
        V[x] := Wrap8(V[x] as int - V[y]);
      } else if n == 0x6 {
        V[VF] := V[x] % 2;
        V[x] := V[x] / 2;
      } else if n == 0x7 {
        V[VF] := if V[y] > V[x] then 1 else 0;
        V[x] := Wrap8(V[y] as int - V[x]);
      } else if n == 0xE {
        V[VF] := V[x] / 0x80;
        V[x] := Wrap8(V[x] as int * 2);
      }
    }

    /** Dxyn: clear VF, run the row loop over the n sprite bytes at I. */
    method Draw(x: nibble, y: nibble, n: nibble)
      requires Valid() && (n == 0 || I + n <= RAM_SIZE)
      modifies display, V
      ensures Snapshot() == Semantics.Draw(old(Snapshot()), x, y, n)
    {
      var vx, vy := V[x], V[y];
      ghost var sprite := SpriteAt(Snapshot(), n);
      V[VF] := 0;
      DrawRows(vx, vy, n, sprite);
      DrawnState(old(Snapshot()), x, y, n, display[..], V[..]);
    }

    /** Dxyn: the row loop of the interpreter. */
    method DrawRows(vx: byte, vy: byte, n: nibble, ghost sprite: seq<byte>)
      requires Valid() && |sprite| == n && V[VF] == 0
      requires n > 0 ==> I + n <= RAM_SIZE && sprite == ram[I..I + n]
      modifies display, V
      ensures forall p :: 0 <= p < PIXELS ==>
        display[p] == (old(display[p]) != (p in Covered(sprite, vx, vy, n * 8)))
      ensures V[..] == old(V[..])[VF := if Collides(old(display[..]), sprite, vx, vy, n * 8) then 1 else 0]
    {
      ghost var d0 := display[..];
      var row := 0;
      while row < n
        invariant 0 <= row <= n
        invariant forall p :: 0 <= p < PIXELS ==>
          display[p] == (d0[p] != (p in Covered(sprite, vx, vy, row * 8)))
        invariant V[..] == old(V[..])[VF := if Collides(d0, sprite, vx, vy, row * 8) then 1 else 0]
      {
        DrawRow(vx, vy, row, d0, sprite);
        row := row + 1;
      }
    }

    /** Dxyn: the column loop for one sprite row. */
    method DrawRow(vx: byte, vy: byte, row: nat, ghost d0: seq<bool>, ghost sprite: seq<byte>)
      requires Valid() && |d0| == PIXELS && |sprite| <= HEIGHT && row < |sprite|
      requires I + |sprite| <= RAM_SIZE && sprite == ram[I..I + |sprite|]
      requires forall p :: 0 <= p < PIXELS ==>
        display[p] == (d0[p] != (p in Covered(sprite, vx, vy, row * 8)))
      requires V[VF] == if Collides(d0, sprite, vx, vy, row * 8) then 1 else 0
      modifies display, V
      ensures forall p :: 0 <= p < PIXELS ==>
        display[p] == (d0[p] != (p in Covered(sprite, vx, vy, row * 8 + 8)))
      ensures V[..] == old(V[..])[VF := if Collides(d0, sprite, vx, vy, row * 8 + 8) then 1 else 0]
    {
      var spriteByte := ram[I + row];
      var col := 0;
      while col < 8
        invariant 0 <= col <= 8
        invariant forall p :: 0 <= p < PIXELS ==>
          display[p] == (d0[p] != (p in Covered(sprite, vx, vy, row * 8 + col)))
        invariant V[..] == old(V[..])[VF := if Collides(d0, sprite, vx, vy, row * 8 + col) then 1 else 0]
      {
        DrawPixel(vx, vy, spriteByte, row, col, d0, sprite);
        col := col + 1;
      }
    }

    /** One iteration of the inner draw loop: toggle the pixel for (row, col)
        when its sprite bit is set, raising VF if it was on. */
    method DrawPixel(vx: byte, vy: byte, spriteByte: byte, row: nat, col: nat,
                     ghost d0: seq<bool>, ghost sprite: seq<byte>)
      requires Valid() && |d0| == PIXELS && |sprite| <= HEIGHT
      requires row < |sprite| && col < 8 && sprite[row] == spriteByte
      requires forall p :: 0 <= p < PIXELS ==>
        display[p] == (d0[p] != (p in Covered(sprite, vx, vy, row * 8 + col)))
      modifies display, V
      ensures forall p :: 0 <= p < PIXELS ==>
        display[p] == (d0[p] != (p in Covered(sprite, vx, vy, row * 8 + col + 1)))
      ensures V[..] == if Drawn(sprite, row * 8 + col) && d0[StepPixel(vx, vy, row * 8 + col)]
                       then old(V[..])[VF := 1] else old(V[..])
    {
      ghost var j := row * 8 + col;
      WalkStep(sprite, vx, vy, row, col);
      var index := (vx as int + col + (vy as int + row) * WIDTH) % PIXELS;
      if And(spriteByte, ShiftRight(0x80, col), 8) != 0 {
        NotYetCovered(sprite, vx, vy, j, j);
        if display[index] {
          V[VF] := 1;
        }
        display[index] := !display[index];
      }
    }

    /** The Fxkk group. */
    method Misc(x: nibble, kk: byte)
      requires Valid() && MiscDefined(Snapshot(), x, kk)
      modifies this, ram, V
      ensures Valid() && mode == old(mode) && inst == old(inst)
      ensures Snapshot() == Semantics.Misc(old(Snapshot()), x, kk)
    {
      if kk == 0x07 {
        V[x] := delayTimer;
      } else if kk == 0x0A {
        WaitKey(x);
      } else if kk == 0x15 {
        delayTimer := V[x];
      } else if kk == 0x18 {
        soundTimer := V[x];
      } else if kk == 0x1E {
        I := Wrap16(I as int + V[x]);
      } else if kk == 0x29 {
        I := V[x] as int * 5;
      } else if kk == 0x33 {
        var bcd := V[x];
        ram[I + 2] := bcd % 10;
        bcd := bcd / 10;
        ram[I + 1] := bcd % 10;
        bcd := bcd / 10;
        ram[I] := bcd;
      } else if kk == 0x55 {
        StoreRegisters(x);
      } else if kk == 0x65 {
        LoadRegisters(x);
      }
    }

    /** Fx0A: scan the keypad from key 0 upwards. */
    method WaitKey(x: nibble)
      requires Valid()
      modifies this, V
      ensures Valid() && mode == old(mode) && inst == old(inst)
      ensures Snapshot() == Semantics.WaitKey(old(Snapshot()), x)
    {
      var pressed := false;
      var i := 0;
      while i < KEYS
        invariant 0 <= i <= KEYS
        invariant forall j :: 0 <= j < i ==> !keypad[j]
        invariant V[..] == old(V[..]) && !pressed
      {
        if keypad[i] {
          V[x] := i;
          pressed := true;
          break;
        }
        i := i + 1;
      }
      assert pressed ==> i == LowestKeyDown(keypad[..]) && V[..] == old(V[..])[x := i];
      assert !pressed ==> LowestKeyDown(keypad[..]) == KEYS;
      if !pressed {
        PC := Wrap16(PC as int - 2);
      }
    }

    /** Fx55: V0..Vx into ram[I..I+x]. */
    method StoreRegisters(x: nibble)
      requires Valid() && I + x < RAM_SIZE
      modifies ram
      ensures Snapshot() == Semantics.StoreRegisters(old(Snapshot()), x)
    {
      var i := 0;
      while i <= x
        invariant 0 <= i <= x + 1
        invariant forall a :: 0 <= a < RAM_SIZE ==>
          ram[a] == if I <= a < I + i then V[a - I] else old(ram[a])
      {
        ram[I + i] := V[i];
        i := i + 1;
      }
      ghost var s := old(Snapshot());
      assert ram[..] == s.ram[..I] + V[..x + 1] + s.ram[I + x + 1..];
    }

    /** Fx65: ram[I..I+x] into V0..Vx. */
    method LoadRegisters(x: nibble)
      requires Valid() && I + x < RAM_SIZE
      modifies V
      ensures Snapshot() == Semantics.LoadRegisters(old(Snapshot()), x)
    {
      var i := 0;
      while i <= x
        invariant 0 <= i <= x + 1
        invariant forall r :: 0 <= r < REGISTERS ==>
          V[r] == if r < i then ram[I + r] else old(V[r])
      {
        V[i] := ram[I + i];
        i := i + 1;
      }
      assert V[..] == ram[I..I + x + 1] + old(V[..])[x + 1..];
    }
  }
}
