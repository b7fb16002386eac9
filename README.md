# CHIP-8 interpreter core in Dafny

This project models the instruction cycle of a small C++ CHIP-8 emulator.
It covers the `chip8_obj` class: 4 KiB of memory, a 64 × 32 monochrome
display, a 12-entry call stack, the registers V0..VF, I and PC, two timers
and a 16-key keypad. It models the constructor, `initialize` and
`run_instruction`, which fetches one big-endian word at PC, advances PC by 2,
decodes the fields and executes one of the 34 operations.

The model has two layers:

* `Semantics` is a value model. `State` is a datatype and each operation is a
  function. `Semantics.Step(s, rnd)` is one call of `run_instruction`.
* `Interpreter.Chip8` is a class that keeps memory, display, stack,
  registers and keypad in arrays and updates them in place, as the C++
  object does. Its methods carry the source's loops: the two nested drawing
  loops, the keypad scan of Fx0A and the copy loops of Fx55 and Fx65. Each
  instruction method is proved to leave the object in the state the matching
  `Semantics` function computes (`Snapshot() == Semantics.Step(old(Snapshot()), rnd)`).
  The inner drawing methods `DrawRow` and `DrawPixel` are proved against the
  toggled set and collision flag of the sprite walk in `Sprites`.

The properties in `Properties` are stated over the value model.

Supporting modules:

* `Bits` models C++ `uint8_t`/`uint16_t` arithmetic as integers with
  explicit wrap-around. It defines `&`, `|` and `^` bit by bit.
* `Instructions` covers fetch and decode.
* `Sprites` covers the pixel geometry of Dxyn.

Where the usual CHIP-8 description and this code differ, the model follows
the code:

* 8xy4 stores the sum into the 8-bit Vx before it tests `Vx > 255`, so VF
  always ends 0 and the carry is lost (`Properties.AddClearsFlag`,
  `Properties.AddCarryExample`).
* 8xy5, 8xy6, 8xy7 and 8xyE write VF first and then compute Vx from the
  registers after that write. When x is F, the flag is therefore
  overwritten (`Properties.FlagDestination`); when y is F, 8xF5 and 8xF7
  subtract with the new flag, not the old VF (`Properties.FlagOperand`).
* Fx29 sets I to Vx × 5 without the font base 0x50, so for a digit I points
  below the font (`Properties.DigitAddressBelowFont`).
* The stack cursor, the memory addresses and the key index Vx are never
  checked. The model makes them preconditions of a step (`Semantics.Executable`).
  Each one guards an access the code actually makes. Dxy0 draws no rows and
  reads no memory, so it runs for any I (`Properties.EmptySpriteDrawsNothing`).
* PC and I wrap modulo 65536 because they are `uint16_t`.
* Cxkk's random byte is the parameter `rnd`. The interpreter builds a fresh,
  default-seeded generator each time, so the draw is not modelled.
* The display is fixed at 64 × 32 (the configuration's defaults).
* An opcode the interpreter does not recognise only advances PC.

## Model

| member | source | states |
|---|---|---|
| Instructions.Word | chip8.cc:286 | the opcode's high byte is ram[PC] and its low byte is ram[PC+1] |
| Instructions.WordIsShiftOr | chip8.cc:286 | `(hi << 8) \| lo` equals hi·256 + lo, so the shift-or builds the same word |
| Instructions.Decode | chip8.cc:291-296 | opcode = group·0x1000 + nnn, nnn = x·0x100 + kk, kk = y·0x10 + n |
| Instructions.DecodeMatchesMasks | chip8.cc:291-304 | nnn, kk, n, x, y and the group are exactly the source's masks and shifts of the opcode |
| Instructions.DecodeInjective | chip8.cc:291-296 | the group and nnn together determine the opcode |
| Properties.FetchFields | chip8.cc:286-296 | the group and x are the nibbles of ram[PC]; kk is ram[PC+1], with y and n its nibbles |
| Sprites.PixelIndex | chip8.cc:463-465 | a sprite pixel's display index is always inside the 2048-pixel buffer |
| Bits.ShiftRightDiv | chip8.cc:295-296 | the right shift used for the x and y fields and the sprite mask is division by 2^k, so both readings of `>>` agree |
| Sprites.SpriteBitMsbFirst | chip8.cc:462 | the mask `0x80 >> col` tests bit 7 − col, so sprites are drawn most significant bit first |
| Sprites.PixelsDistinct | chip8.cc:459-465 | for rows below 32 and columns below 8, two sprite positions never share a display index |
| Sprites.WalkStep | chip8.cc:460-465 | step row·8 + col of the walk is sprite row `row`, column `col`: it draws exactly when that bit is set, at that pixel index, and adds only that pixel |
| Sprites.NotYetCovered | chip8.cc:459-471 | a later step of the drawing walk never lands on a pixel an earlier step toggled |
| Sprites.CoveredIff | chip8.cc:459-471 | a pixel is toggled exactly when some step has its sprite bit set and lands on it |
| Sprites.SpriteCovers | chip8.cc:459-471 | the same statement per sprite row and column |
| Sprites.CollidesIff | chip8.cc:458-468 | the collision flag is set exactly when some toggled pixel was on beforehand |
| Sprites.ToggleTwice | chip8.cc:469 | XOR-ing the same pixels twice restores the display |
| Semantics.LowestKeyDown | chip8.cc:499-505 | returns the lowest index of a key that is down, or 16 when none is |
| Semantics.Execute | chip8.cc:304-559 | every operation keeps the array sizes and a stack depth of at most 12 |
| Semantics.Step | chip8.cc:282-304 | one instruction cycle keeps the machine well formed |
| Interpreter.Chip8.constructor | chip8.cc:81-92 | state RUNNING; PC 0x200; empty stack; memory, display, registers, I, timers and keypad all zero |
| Interpreter.Chip8.Initialize | chip8.cc:94-141 | PC 0x200, empty stack, font copied to 0x50, program copied to 0x200, nothing else changed (mode and the recorded instruction included) |
| Interpreter.Chip8.Step | chip8.cc:282-304 | the in-place fetch, advance, decode and execute yields `Semantics.Step` of the old state and records the decoded instruction |
| Interpreter.Chip8.Execute | chip8.cc:304-559 | the in-place dispatch yields `Semantics.Execute` |
| Interpreter.Chip8.ClearScreen | chip8.cc:307-309 | every pixel is off afterwards |
| Interpreter.Chip8.Arithmetic | chip8.cc:362-430 | the 8xyN cases in place, with VF written before Vx, yield `Semantics.Arithmetic` |
| Semantics.SpriteAt | chip8.cc:456-460 | the sprite is the n bytes at I, one per row; with n = 0 it is empty and no memory is read |
| Interpreter.Chip8.Draw | chip8.cc:452-473 | clearing VF and running the row loop leaves the display XOR-ed with the sprite's pixels and VF set to the collision flag, for n = 0 with any I |
| Interpreter.Chip8.DrawRows | chip8.cc:459-472 | the row loop toggles exactly the pixels the whole sprite walk covers and sets VF to its collision flag |
| Interpreter.Chip8.DrawRow | chip8.cc:460-472 | one pass of the column loop adds the row's 8 steps to the toggled set and the collision flag |
| Interpreter.Chip8.DrawPixel | chip8.cc:462-471 | one pixel is toggled when its sprite bit is set, and VF is raised if that pixel was on |
| Interpreter.Chip8.Misc | chip8.cc:489-559 | the Fxkk cases in place yield `Semantics.Misc` |
| Interpreter.Chip8.WaitKey | chip8.cc:495-511 | the keypad scan stores the lowest key that is down, or steps PC back by 2 when none is |
| Interpreter.Chip8.StoreRegisters | chip8.cc:543-548 | the copy loop writes V0..Vx to ram[I..I+x] |
| Interpreter.Chip8.LoadRegisters | chip8.cc:550-554 | the copy loop reads ram[I..I+x] into V0..Vx |
| Properties.StraightLineAdvancesPC | chip8.cc:287 | instructions that neither jump, skip nor wait end with PC advanced by 2 and the stack unchanged |
| Properties.JumpTargets | chip8.cc:317-443 | 1nnn sets PC to nnn; Bnnn sets PC to nnn + V0 with no wrap |
| Properties.ReturnUndoesCall | chip8.cc:310-324 | a return pops exactly the address and depth a call pushed |
| Properties.CallThenReturn | chip8.cc:310-324 | a call enters nnn one level deeper, and a return then comes back to the word after the call at the old depth |
| Properties.SkipsOnlyMovePC | chip8.cc:326-485 | a skip changes only PC: +4 when its condition holds, +2 otherwise |
| Properties.UnknownOpcodesOnlyAdvance | chip8.cc:304-559 | an opcode no case matches only advances PC by 2 |
| Properties.ArithmeticTouchesOnlyVxAndVF | chip8.cc:362-430 | the 8xyN group changes no register other than Vx and VF, and nothing outside the registers |
| Properties.LogicOpsBitwise | chip8.cc:368-378 | 8xy1/2/3 set each bit of Vx to the OR/AND/XOR of the operand bits |
| Properties.AddClearsFlag | chip8.cc:380-388 | 8xy4 leaves the sum modulo 256 in Vx and always leaves VF = 0 |
| Properties.AddCarryExample | chip8.cc:380-388 | 0xFF + 0x01 leaves Vx = 0 and VF = 0: the carry is lost |
| Properties.SubtractFlags | chip8.cc:390-418 | for x, y ≠ F, 8xy5 and 8xy7 set VF = 1 exactly on a strict no-borrow and leave the difference modulo 256 |
| Properties.ShiftFlags | chip8.cc:400-428 | for x ≠ F, 8xy6: 2·Vx' + VF = Vx; 8xyE: 256·VF + Vx' = 2·Vx; the flag is 0 or 1 |
| Properties.FlagDestination | chip8.cc:390-428 | with x = F the flag is overwritten: for every y, 8Fy6 leaves 0 and 8FyE leaves 2·(VF ≫ 7); for y ≠ F, 8Fy5 leaves flag − Vy and 8Fy7 leaves Vy − flag (modulo 256); 8FF5 and 8FF7 leave 0 |
| Properties.FlagOperand | chip8.cc:390-418 | with y = F, 8xF5 leaves Vx − flag and 8xF7 leaves flag − Vx (modulo 256): the operand is the flag just written |
| Properties.AddImmediateWraps | chip8.cc:358-360 | for x ≠ F, 7xkk adds modulo 256 and leaves VF unchanged |
| Properties.RandomMasked | chip8.cc:445-450 | a bit of the Cxkk result is set exactly when it is set in both the random byte and kk |
| Properties.DrawToggles | chip8.cc:452-473 | a pixel changes exactly when some sprite row and column with its bit set lands on it; memory and the other registers are unchanged |
| Properties.DrawCollision | chip8.cc:456-468 | VF is 1 exactly when the draw turned some pixel off, and 0 otherwise |
| Properties.EmptySpriteDrawsNothing | chip8.cc:456-460 | Dxy0 can always run, whatever I holds; it only advances PC and clears VF, and the display is unchanged |
| Properties.DrawOnBlank | chip8.cc:456-468 | drawing on a blank display leaves VF = 0 |
| Properties.DrawTwiceRestores | chip8.cc:452-473 | drawing the same sprite at the same place twice restores the display |
| Properties.WaitKeyTakesLowest | chip8.cc:495-511 | Fx0A stores the lowest key that is down and leaves PC unchanged; with none down, it steps PC back by 2 |
| Properties.WaitKeyBlocks | chip8.cc:495-511 | a whole cycle of Fx0A with no key down leaves the machine unchanged |
| Properties.BcdDigits | chip8.cc:531-541 | Fx33 stores three decimal digits, hundreds at I, whose value is Vx, and changes no other byte |
| Properties.DigitAddressBelowFont | chip8.cc:525-527 | Fx29 sets I = 5·Vx, which for a digit lies wholly below the font at 0x50 |
| Properties.StoreRegistersCopies | chip8.cc:543-548 | Fx55 writes V0..Vx to ram[I..I+x] and changes nothing else |
| Properties.LoadRegistersCopies | chip8.cc:550-554 | Fx65 reads ram[I..I+x] into V0..Vx and changes nothing else |
| Properties.StoreThenLoad | chip8.cc:543-554 | Fx65 right after Fx55 with the same I and x changes nothing |
| Properties.LoadThenStore | chip8.cc:543-554 | Fx55 right after Fx65 with the same I and x changes nothing |
| Properties.InitializeLoads | chip8.cc:94-141 | the font is at 0x50 and the program at 0x200, all other bytes and the registers are unchanged, PC is 0x200 and the stack is empty |
| Properties.FirstFetch | chip8.cc:94-141 | after loading, the first fetched word is the program's first two bytes |

## Left out

- SDL (window, renderer, event polling in `handle_input`), `main` and signal handling: these are I/O and the front end, not the instruction cycle.
- Timer ticks: the source never decrements the delay or sound timer (only Fx07, Fx15 and Fx18 read or write them), so the model has no timer tick either.
- Pause and quit: the `state` field is set by the constructor. Only the front end changes or reads it.
- Debug output written to `std::cout` and the SDL log.
- Cxkk's `std::ranlux48` generator: the random byte is a parameter.
- Opening and reading the program file: `Initialize` takes the bytes read. When the file cannot be opened, the code has already set PC, reset the stack and copied the font, and then returns. That is the same state as loading an empty program.
- Interpreter.Chip8.Initialize: requires a program of at most 3584 bytes. The code only logs an oversized program and then reads past the end of memory, which the model does not describe.
- The configurable display size: the model fixes the configuration's defaults, 64 × 32.
- The contents of the stack array before use: the constructor does not clear it, and the model leaves those slots unconstrained.
- Stack overflow and underflow, memory accesses beyond 4096 bytes and keypad indices beyond 15: the code does not check them, so the model makes them preconditions. A precondition applies only where the code actually makes the access. For example, Dxy0 reads no sprite byte and carries no bound on I.
- The record of the last decoded instruction (`inst`) is kept by `Interpreter.Chip8.Step`. The value model leaves it out because no instruction reads it.
