# tomoakemi CHIP-8 cores in Dafny

This project models the two CHIP-8 virtual machines of the tomoakemi repository and proves
properties about them:

- The **current processor**, `tomo/src/chip8/processor.rs`, with its pixel buffer
  `tomo/src/chip8/display.rs`. Its `execute` splits the opcode into four nibbles and matches
  them against 35 patterns. Each arm changes the machine and returns a program-counter outcome
  (`Next`, `Skip`, `Block` or `Jump(addr)`). The outcome is applied once, at the end.
  `fetch` does not move pc. DT and ST are registers 16 and 17.
- The **older CPU**, `tomo/alter_chip/cpu.rs`, with its display `tomo/alter_chip/display.rs`.
  Its `fetch` advances pc by 2, and `execute` writes pc directly. `execute` returns an `Output`
  with a success flag and the list of display indices it wrote. DT and ST are fields of their
  own. The stack is pre-increment, so slot 0 is never written.

Each core has three layers:

1. A **class over arrays** that follows the Rust code arm by arm:
   - `Chip8Processor.Processor`, `Chip8Display.Display`, `AlterCpu.Cpu`, `AlterDisplay.Display`;
   - memory, stack, registers, keys and display cells are arrays updated in place;
   - loops are `for` and `while` loops with invariants.
2. A **value semantics**, `Chip8Semantics` and `AlterSemantics`: one function per entry point
   and per group of match arms, over an immutable snapshot `Machine`.
   - Every method of a class is proved to leave its snapshot `State()` where the function
     puts it.
   - Every method is proved to return what the function returns.
3. **Properties** of those functions. They are stated in plain integer arithmetic and against
   independent references:
   - `SpriteBlit`, a generic XOR blit with wrap-around, which both displays and both `Dxyn`
     loops are proved to implement;
   - a flat table of the recognised opcode patterns;
   - round trips: CALL then RET, Fx55 then Fx65, Fx15 then Fx07, drawing twice, key press
     then release, and `reset` twice.

Modules by file:

| file | module | what it holds |
|---|---|---|
| bits.dfy | Bits | `byte` (`bv8`), `u16`, `Option`, flag bytes and carry/borrow arithmetic |
| sprite_blit.dfy | SpriteBlit | the reference blit: cell layout, targets, XOR mask, exact effect and collision |
| chip8_display.dfy | Chip8Display | `Display` of `tomo/src/chip8/display.rs` and `FONT` |
| chip8_semantics.dfy | Chip8Semantics | decoding, handlers, outcomes, `tick`, `reset` and `load` of `processor.rs` as functions |
| chip8_processor.dfy | Chip8Processor | class `Processor` over arrays |
| chip8_properties.dfy | Chip8Properties | `Dxyn` as the reference blit, and success exactly for the recognised opcodes |
| chip8_instructions.dfy | Chip8Instructions | one lemma per opcode group of `processor.rs` |
| chip8_lifecycle.dfy | Chip8Lifecycle | timers, beeper, keys, `reset`, `load` and `new` |
| legacy_display.dfy | AlterDisplay | `Display` of `tomo/alter_chip/display.rs` |
| alter_semantics.dfy | AlterSemantics | `cpu.rs` as functions |
| alter_cpu.dfy | AlterCpu | class `Cpu` over arrays |
| alter_draw.dfy | AlterDraw | `Dxyn` of `cpu.rs` as the reference blit plus the list of edited indices |
| alter_properties.dfy | AlterProperties | one lemma per opcode group of `cpu.rs`, and the lifecycle |
| corrections.dfy | Corrections | corrected definitions for the arms whose comments say something else, with their properties |

Modelling choices:

- **Constants.** The constants module of the current processor is not part of this model, so
  its values are declared here:
  - `OPCODE_SIZE = 2`;
  - `RAM_SIZE = 4096`;
  - `STACK_SIZE = 16`;
  - `REGISTER_SIZE = 18` (V0–VF, DT, ST);
  - a 64 × 32 screen (`DISPLAY_WIDTH` 64, `DISPLAY_HEIGHT` 32).
- **Display names.** `tomo/src/chip8/display.rs` keeps its swapped names, `HOEHE = 64` and
  `BREITE = 32`, so its buffer is 32 cells per line. The processor calls `get_pixel(row, col)`
  and `set_pixel(row, col, _)`, which address cell `row + col * 32`; `SpriteBlit` takes the
  layout as a parameter.
- **`cls`.** The processor calls `display.cls()`, which the display file does not define. It is
  modelled as that file's `clear_display`.
- **Older display.** `cpu.rs` imports `crate::chip8::display`, but it uses the linear-index API
  (`get_pixel_state`, `set_pixel_state`) of `tomo/alter_chip/display.rs`. It is modelled
  against that file.
- **Cells.** Both displays store each cell as a `u8` that only the setter writes, always 0 or 1.
  Here a cell is a `bool`.
- **Randomness.** `random_byte()` is replaced by a `rnd: byte` parameter of `execute` and `tick`.
- **Panics.** Rust panic paths become `requires`:
  - out-of-range array indexing;
  - `u16` underflow of `sp -= 1` and `pc -= 2`;
  - debug-build `u8`/`u16` overflow of `+=`, `-=` and `*`.
  
  The predicates `CanExecute` and `CanTick` collect them per opcode. Everything the source
  handles itself, such as an unknown opcode, a missing ROM or a key that is not pressed, is
  modelled as behaviour.
- **Code versus its own comments.** In five places the comment beside an arm says something the
  code does not do. The model follows the code. "## Findings" records four of them, each with a
  corrected definition in `Corrections`:
  - processor.rs:339-341: Fx0A is to step back and "land here again". As written, the next tick
    runs the instruction before Fx0A (see the Fx0A item below).
  - processor.rs:254: the comment of 8xy5 sets VF when Vy > Vx, but the code tests `Vx > Vy`,
    strictly. That is the usual CHIP-8 borrow flag, so the comment rather than the code is
    off, and there is no finding for it.
  - cpu.rs:156: 6xkk "sets" Vx to kk, but the code adds kk to Vx.
  - cpu.rs:359-361: Fx29 points I at the glyph of the value of Vx, but the code multiplies the
    register number x by 5.
  - cpu.rs:373: Fx55 copies V0 to Vx, but the loops of Fx55 and Fx65 stop before Vx.
- **Code versus the usual CHIP-8 instruction set.** These arms behave unlike most CHIP-8
  machines, and no comment says otherwise. The model follows the code:
  - Current processor:
    - Fx55/Fx65 copy all 18 registers whatever x is, DT and ST included, as the comments at
      processor.rs:384 and 391 say.
    - Fx29 multiplies the register's value by 5 in `u8`.
    - Fx1E sets VF to `I > 0xF00`.
    - An unrecognised opcode still advances pc by 2.
  - Older CPU:
    - 8xy4 and 8xy5 leave VF alone.
    - `reset` sets pc to 0, and `load_rom` then sets it to 0x200.
- **Fx0A in the current processor.** With no key, `Fx0A` returns `Block`, which subtracts 2 from
  pc. Because this processor's `fetch` does not advance pc, pc then points at the instruction
  *before* Fx0A, and the next tick runs that instruction again instead of Fx0A.
  `Chip8Instructions.WaitRefetchesPrevious` states this behaviour as written, and
  `Corrections.IntendedWaitRefetches` the corrected one. The older CPU returns to Fx0A itself
  (`AlterProperties.WaitRefetches`).
- **Dxyn reads the flag register.** In both processors `Dxyn` clears VF first and then reads
  Vx and Vy again, inside the loop in the current processor. When x or y is 15, the coordinate
  follows VF as it changes. The functions model that exactly. The blit lemmas are stated for
  x, y ≠ 15.

## Model

| member | source | states |
|---|---|---|
| Bits.FlagByte | tomo/src/chip8/processor.rs:248 | a flag byte is 0 or 1, and 1 exactly when the condition holds (the `if … { 1 } else { 0 }` of the flag writes) |
| Bits.AddWraps | tomo/src/chip8/processor.rs:205-213 | u8 addition is the integer sum modulo 256 |
| Bits.SubWraps | tomo/src/chip8/processor.rs:256 | `wrapping_sub` on u8 is the integer difference modulo 256 |
| Bits.Shifts | tomo/src/chip8/processor.rs:259-280 | `>> 1` halves, `& 1` is the lsb, `<< 1` doubles modulo 256, `(v & 0x80) >> 7` is the msb |
| Bits.Word | tomo/src/chip8/processor.rs:141-144 | the high byte shifted left by 8 and OR-ed with the low byte is `hi * 256 + lo` |
| SpriteBlit.CellOnto | tomo/src/chip8/display.rs:45-56 | every linear index is the cell of a unique in-range (column, row) |
| SpriteBlit.CellInjective | tomo/src/chip8/display.rs:45-52 | two in-range (column, row) pairs share a cell exactly when they are equal |
| SpriteBlit.TargetInjective | tomo/src/chip8/display.rs:72-78 | on a screen at least 8 wide, distinct (row, bit) positions of a sprite no taller than the screen land on distinct cells |
| SpriteBlit.DrawBitsXor | tomo/src/chip8/display.rs:74-84 | drawing one row preserves, cell by cell, the XOR difference between any two buffers |
| SpriteBlit.DrawIsXorMask | tomo/src/chip8/display.rs:69-88 | the blit XORs the buffer with a mask that depends only on position and sprite |
| SpriteBlit.DrawTwiceRestores | tomo/src/chip8/display.rs:83 | drawing the same sprite twice at the same place restores the buffer |
| SpriteBlit.DrawLeavesUncovered | tomo/src/chip8/display.rs:76 | a cell under no set sprite bit keeps its value |
| SpriteBlit.DrawExact | tomo/src/chip8/display.rs:69-88 | for a sprite no taller than the screen, each cell under a set bit is toggled and the rest are kept, and the collision is true exactly when some set bit hit a lit cell |
| SpriteBlit.DrawProperties | tomo/src/chip8/display.rs:69-88 | the two facts above together, the first for any sprite height |
| Chip8Display.Display.constructor | tomo/src/chip8/display.rs:38-42 | a new display has all 2048 cells off |
| Chip8Display.Display.SetPixel | tomo/src/chip8/display.rs:45-47 | `set_pixel(x, y, on)` makes cell `x + y * BREITE` equal to `on`, leaves every other cell unchanged, and `get_pixel(x, y)` then returns `on` |
| Chip8Display.Display.GetPixel | tomo/src/chip8/display.rs:50-52 | `get_pixel(x, y)` is the cell at column x, row y of the 32-wide buffer |
| Chip8Display.Display.GetPixelSingle | tomo/src/chip8/display.rs:54-56 | `get_pixel_single(p)` is `get_pixel` at the column and row of p |
| Chip8Display.Display.ClearDisplay | tomo/src/chip8/display.rs:59-65 | after `clear_display` every cell is off |
| Chip8Display.Display.Draw | tomo/src/chip8/display.rs:69-88 | the buffer and the flag are the reference blit at (x mod 32, y mod 64); uncovered cells are unchanged; for sprites up to 64 rows exactly the covered cells are toggled and the flag is true exactly when some set bit hit a lit cell |
| AlterDisplay.Display.constructor | tomo/alter_chip/display.rs:38-42 | a new display has all HOEHE * BREITE cells off |
| AlterDisplay.Display.SetPixelState | tomo/alter_chip/display.rs:48-50 | `set_pixel_state(p, s)` makes `get_pixel_state(p) == s` and leaves every other cell unchanged |
| AlterDisplay.PixelStateIsCell | tomo/alter_chip/display.rs:44-46 | `get_pixel_state(p)` is the cell at column p mod 64, row p / 64 |
| AlterDisplay.Display.ClearDisplay | tomo/alter_chip/display.rs:53-60 | after `clear_display` every cell is off |
| AlterDisplay.Display.Draw | tomo/alter_chip/display.rs:64-83 | the buffer and the flag are the reference blit on the 64 × 32 screen; uncovered cells are unchanged; for sprites up to 32 rows exactly the covered cells are toggled and the flag is true exactly when some set bit hit a lit cell |
| Chip8Semantics.KeyIndexInjective | tomo/src/chip8/processor.rs:36-53 | two keys have the same index into `keys` exactly when they are the same key |
| Chip8Semantics.SkipIf | tomo/src/chip8/processor.rs:17-23 | `skip_if(c)` is `Skip` exactly when c holds, and `Next` exactly when it does not |
| Chip8Semantics.Fetch | tomo/src/chip8/processor.rs:141-144 | the high byte of the fetched word is `ram[pc]` and the low byte is `ram[pc + 1]` |
| Chip8Semantics.Decode | tomo/src/chip8/processor.rs:149-159 | the four nibbles are below 16 and nnn is below 0x1000 |
| Chip8Semantics.DecodeLosesNothing | tomo/src/chip8/processor.rs:149-159 | the nibbles put back together give the opcode, and nnn is its low 12 bits |
| Chip8Semantics.HandleSystem | tomo/src/chip8/processor.rs:164-173 | 00E0/00EE leave pc to the outcome, and a failed arm is an unchanged machine with `Next` |
| Chip8Semantics.HandleBasic | tomo/src/chip8/processor.rs:174-302 | the arms 1nnn–Cxkk leave pc, keys and the current key to the outcome, and a failed arm changes nothing |
| Chip8Semantics.HandleAlu | tomo/src/chip8/processor.rs:214-280 | the 8xy_ arms leave pc and keys alone, and an unknown n fails with no change |
| Chip8Semantics.PixelIndexIsCell | tomo/src/chip8/processor.rs:314-315 | `get_pixel(row, col)` as the processor calls it addresses the column-major cell of (col, row) |
| Chip8Semantics.HandleDraw | tomo/src/chip8/processor.rs:303-320 | Dxyn always succeeds with outcome `Next` and leaves pc and keys alone |
| Chip8Semantics.HandleKeys | tomo/src/chip8/processor.rs:321-332 | Ex9E/ExA1 leave the machine to the outcome, and another Ex__ fails with no change |
| Chip8Semantics.BcdDigits | tomo/src/chip8/processor.rs:378-380 | three decimal digits, each below 10, with `100·d0 + 10·d1 + d2 == v` |
| Chip8Semantics.WriteBlock | tomo/src/chip8/processor.rs:385-387 | the block appears at its offset and every byte outside it is unchanged |
| Chip8Semantics.HandleMisc | tomo/src/chip8/processor.rs:333-397 | the Fx__ arms leave pc and keys to the outcome, and an unknown Fx__ fails with no change |
| Chip8Semantics.Handle | tomo/src/chip8/processor.rs:163-403 | no arm writes pc, keys or the current key, and a failed arm is the unchanged machine with `Next` |
| Chip8Semantics.WithFont | tomo/src/chip8/processor.rs:420-424 | `initialize` puts FONT at 0..80 and leaves the rest of ram unchanged |
| Chip8Processor.BcdWrites | tomo/src/chip8/processor.rs:373-382 | the three stores of Fx33 write `v / 100`, `(v % 100) / 10` and `v % 10` at I, I+1 and I+2 |
| Chip8Processor.Processor.constructor | tomo/src/chip8/processor.rs:115-138 | `new` builds the initial machine: zeroed state, pc 0x200, FONT at 0..80, a blank display |
| Chip8Processor.Processor.Initialize | tomo/src/chip8/processor.rs:420-424 | the loop writes FONT to ram[0..80] and nothing else |
| Chip8Processor.Processor.Fetch | tomo/src/chip8/processor.rs:141-144 | the method returns the big-endian word at pc and changes no state |
| Chip8Processor.Processor.Execute | tomo/src/chip8/processor.rs:147-416 | `execute` moves the arrays exactly as `Exec` says and returns its success flag |
| Chip8Processor.Processor.Dispatch | tomo/src/chip8/processor.rs:163-403 | the match updates the arrays as `Handle` says and returns that outcome and success flag |
| Chip8Processor.Processor.ExecuteSystem | tomo/src/chip8/processor.rs:164-173 | 00E0 clears the display and 00EE pops the stack, as `HandleSystem` |
| Chip8Processor.Processor.ExecuteBasic | tomo/src/chip8/processor.rs:174-302 | the 1nnn–Cxkk arms, as `HandleBasic` |
| Chip8Processor.Processor.ExecuteFlow | tomo/src/chip8/processor.rs:174-184 | 1nnn, 2nnn (push pc+2) and Bnnn, as `HandleBasic` |
| Chip8Processor.Processor.ExecuteSkip | tomo/src/chip8/processor.rs:185-199 | 3xkk/4xkk/5xy0/9xy0 change no state and return the `skip_if` outcome |
| Chip8Processor.Processor.ExecuteLoad | tomo/src/chip8/processor.rs:200-213 | 6xkk, 7xkk, Annn and Cxkk, as `HandleBasic` |
| Chip8Processor.Processor.AddByte | tomo/src/chip8/processor.rs:205-213 | 7xkk stores `Vx + kk` truncated to u8, and no other register changes |
| Chip8Processor.Processor.RandomByte | tomo/src/chip8/processor.rs:296-302 | Cxkk stores `rnd & kk` in Vx, and no other register changes |
| Chip8Processor.Processor.ExecuteAlu | tomo/src/chip8/processor.rs:214-280 | the 8xy_ arms, as `HandleAlu` |
| Chip8Processor.Processor.Or | tomo/src/chip8/processor.rs:220-225 | the registers become `LogicOp(_, x, y, 1)`: Vx becomes Vx OR Vy |
| Chip8Processor.Processor.And | tomo/src/chip8/processor.rs:226-231 | the registers become `LogicOp(_, x, y, 2)`: Vx &= Vy |
| Chip8Processor.Processor.Xor | tomo/src/chip8/processor.rs:232-237 | the registers become `LogicOp(_, x, y, 3)`: Vx ^= Vy |
| Chip8Processor.Processor.AddWithCarry | tomo/src/chip8/processor.rs:238-250 | the u16 sum and the carry written as the source writes them equal `FlagOp(_, x, y, 4)` |
| Chip8Processor.Processor.Sub | tomo/src/chip8/processor.rs:251-258 | the flag first, then `wrapping_sub`, equal `FlagOp(_, x, y, 5)` |
| Chip8Processor.Processor.ShiftRight | tomo/src/chip8/processor.rs:259-265 | registers become `FlagOp(_, x, y, 6)` |
| Chip8Processor.Processor.SubReversed | tomo/src/chip8/processor.rs:266-272 | registers become `FlagOp(_, x, y, 7)` |
| Chip8Processor.Processor.ShiftLeft | tomo/src/chip8/processor.rs:273-280 | registers become `FlagOp(_, x, y, 0xE)` |
| Chip8Processor.Processor.ExecuteDraw | tomo/src/chip8/processor.rs:303-320 | clears VF and runs the row loop, as `HandleDraw` |
| Chip8Processor.Processor.DrawRows | tomo/src/chip8/processor.rs:309-317 | the outer loop over n rows leaves registers and display as `DrawSpriteRows` |
| Chip8Processor.Processor.DrawRow | tomo/src/chip8/processor.rs:311-316 | the inner loop over 8 bits leaves them as `DrawRowBits` |
| Chip8Processor.Processor.DrawPixel | tomo/src/chip8/processor.rs:312-315 | one bit, with Vx re-read, the OR into VF and the XOR into the cell, as `DrawBit` |
| Chip8Processor.Processor.ExecuteKeys | tomo/src/chip8/processor.rs:321-332 | Ex9E/ExA1 change no state and return the outcome of `HandleKeys` |
| Chip8Processor.Processor.ExecuteMisc | tomo/src/chip8/processor.rs:333-397 | the Fx__ arms, as `HandleMisc` |
| Chip8Processor.Processor.ExecuteTimers | tomo/src/chip8/processor.rs:333-360 | Fx07, Fx0A, Fx15 and Fx18 always succeed and match `HandleMisc` |
| Chip8Processor.Processor.AddToIndex | tomo/src/chip8/processor.rs:361-366 | I grows by Vx, VF becomes `I > 0xF00`, and no other register changes |
| Chip8Processor.Processor.StoreBcd | tomo/src/chip8/processor.rs:373-382 | ram gets Vx's three decimal digits at I and is otherwise unchanged |
| Chip8Processor.Processor.StoreRegisters | tomo/src/chip8/processor.rs:383-389 | the loop writes all 18 registers to ram[I..I+18] |
| Chip8Processor.Processor.LoadRegisters | tomo/src/chip8/processor.rs:390-397 | the loop makes the registers equal ram[I..I+18] |
| Chip8Processor.Processor.CountDownTimers | tomo/src/chip8/processor.rs:427-433 | DT and ST drop by one when positive, and no other register changes |
| Chip8Processor.Processor.CountDown | tomo/src/chip8/processor.rs:427-429 | one timer register drops by one when positive, and every other register is unchanged |
| Chip8Processor.Processor.Tick | tomo/src/chip8/processor.rs:426-437 | counts the timers down, fetches, executes, as `Tick` |
| Chip8Processor.Processor.ShouldBeep | tomo/src/chip8/processor.rs:440-442 | returns whether ST is positive |
| Chip8Processor.Processor.KeyPress | tomo/src/chip8/processor.rs:445-448 | as `KeyPress`: the key is marked and becomes the current key |
| Chip8Processor.Processor.KeyUp | tomo/src/chip8/processor.rs:451-458 | as `KeyUp`: the key is released, and the current key is cleared only if it was that key |
| Chip8Processor.Processor.Reset | tomo/src/chip8/processor.rs:460-483 | the zeroing loops, sp 0, pc 0x200, the display cleared and the font reloaded, as `Reset` |
| Chip8Processor.Processor.Load | tomo/src/chip8/processor.rs:486-496 | `reset`, then the data copied from 0x200 in order, and the byte count returned |
| Chip8Properties.SpriteAt | tomo/src/chip8/processor.rs:313 | a sprite of n rows whose row j is `ram[I + j]` |
| Chip8Properties.DrawIsBlit | tomo/src/chip8/processor.rs:303-320 | for x, y ≠ 15, Dxyn sets the display to the reference blit of the n bytes at I at (Vx, Vy) and VF to its collision flag, and changes nothing else; covered cells flip, others stay, VF = 1 exactly when a set bit hit a lit pixel |
| Chip8Properties.ExecDraw | tomo/src/chip8/processor.rs:303-320 | a successful Dxyn followed by `pc += 2` |
| Chip8Properties.HandleSuccessIsKnownArm | tomo/src/chip8/processor.rs:163-403 | an arm succeeds exactly when the decoded opcode matches one of the listed patterns |
| Chip8Properties.KnownArmFits | tomo/src/chip8/processor.rs:163-397 | every recognised opcode fits some entry of the flat pattern table |
| Chip8Properties.UnknownFitsNone | tomo/src/chip8/processor.rs:398-402 | an unrecognised opcode fits no entry of the table |
| Chip8Properties.KnownArmIsRecognized | tomo/src/chip8/processor.rs:163-397 | the arm-by-arm description and the table agree on every 16-bit word |
| Chip8Properties.SuccessIffRecognized | tomo/src/chip8/processor.rs:161-415 | `execute` reports success exactly when the opcode is in the table |
| Chip8Instructions.InvalidOpcode | tomo/src/chip8/processor.rs:398-406 | an unrecognised opcode reports failure and only advances pc by 2 |
| Chip8Instructions.SkipOnByte | tomo/src/chip8/processor.rs:185-194 | 3xkk/4xkk change only pc: +4 when the test (equal for 3, different for 4) holds, else +2 |
| Chip8Instructions.SkipOnRegisters | tomo/src/chip8/processor.rs:195-285 | 5xy0/9xy0 change only pc: +4 when Vx == Vy (5) or Vx != Vy (9), else +2 |
| Chip8Instructions.SkipOnKey | tomo/src/chip8/processor.rs:321-332 | Ex9E/ExA1 change only pc: +4 when key Vx is down (9E) or up (A1), else +2 |
| Chip8Instructions.ClearScreen | tomo/src/chip8/processor.rs:164-168 | 00E0 turns every pixel off and otherwise only advances pc by 2 |
| Chip8Instructions.Jumps | tomo/src/chip8/processor.rs:174-295 | 1nnn sets pc to nnn and Bnnn to nnn + V0; nothing else changes |
| Chip8Instructions.Call | tomo/src/chip8/processor.rs:178-184 | 2nnn writes pc+2 to `stack[sp]`, increments sp and jumps to nnn |
| Chip8Instructions.Return | tomo/src/chip8/processor.rs:169-173 | 00EE decrements sp and jumps to `stack[sp]` |
| Chip8Instructions.CallThenReturn | tomo/src/chip8/processor.rs:169-184 | CALL then RET resumes at the instruction after the call, with sp restored; only the used stack slot differs |
| Chip8Instructions.LoadByte | tomo/src/chip8/processor.rs:200-204 | 6xkk sets Vx to kk and advances pc by 2 |
| Chip8Instructions.AddByte | tomo/src/chip8/processor.rs:205-213 | 7xkk adds kk to Vx and advances pc by 2 |
| Chip8Instructions.AddByteWraps | tomo/src/chip8/processor.rs:205-213 | the new Vx is (Vx + kk) mod 256, VF included among the untouched others |
| Chip8Instructions.ExecFlagOp | tomo/src/chip8/processor.rs:238-280 | 8xy4/5/6/7/E set the registers to `FlagOp` and advance pc by 2 |
| Chip8Instructions.AddWithCarry | tomo/src/chip8/processor.rs:238-250 | VF = (Vx + Vy) / 256 and, for x ≠ 15, Vx = (Vx + Vy) mod 256 |
| Chip8Instructions.CarryBit | tomo/src/chip8/processor.rs:248 | VF is 1 exactly when the sum exceeds 0xFF |
| Chip8Instructions.SubWithFlag | tomo/src/chip8/processor.rs:251-258 | for x, y ≠ 15, VF = (Vx > Vy) strictly, and Vx = (Vx − Vy) mod 256 |
| Chip8Instructions.SubReversedWithFlag | tomo/src/chip8/processor.rs:266-272 | for x, y ≠ 15, VF = (Vy > Vx), and Vx = (Vy − Vx) mod 256 |
| Chip8Instructions.ShiftWithFlag | tomo/src/chip8/processor.rs:259-280 | for x ≠ 15, 8xy6 sets VF to the lsb and halves Vx, and 8xyE sets VF to the msb and doubles Vx mod 256 |
| Chip8Instructions.XorTwice | tomo/src/chip8/processor.rs:232-237 | applying 8xy3 twice with x ≠ y restores the registers |
| Chip8Instructions.RandomMasked | tomo/src/chip8/processor.rs:296-302 | Cxkk stores `rnd & kk`, which has no bit outside kk |
| Chip8Instructions.SetIndex | tomo/src/chip8/processor.rs:286-291 | Annn sets I to nnn and advances pc by 2 |
| Chip8Instructions.TimerMoves | tomo/src/chip8/processor.rs:333-360 | Fx07 copies DT into Vx, Fx15 copies Vx into DT and Fx18 copies Vx into ST |
| Chip8Instructions.AddToIndex | tomo/src/chip8/processor.rs:361-366 | Fx1E adds Vx to I and sets VF to `I > 0xF00` |
| Chip8Instructions.FontAddress | tomo/src/chip8/processor.rs:367-372 | Fx29 sets I to 5 · Vx |
| Chip8Instructions.GlyphAt | tomo/src/chip8/processor.rs:367-372 | with the font loaded, ram[5v..5v+5] is glyph v of FONT |
| Chip8Instructions.WaitWithoutKey | tomo/src/chip8/processor.rs:338-350 | Fx0A with no current key succeeds and only moves pc back by 2 |
| Chip8Instructions.WaitRefetchesPrevious | tomo/src/chip8/processor.rs:338-350 | after a blocked Fx0A, the next fetch reads the word before Fx0A |
| Chip8Instructions.WaitWithKey | tomo/src/chip8/processor.rs:342-346 | Fx0A with a current key stores the key's enum position in Vx and advances pc by 2 |
| Chip8Instructions.StoreBcd | tomo/src/chip8/processor.rs:373-382 | Fx33 writes Vx's decimal digits at I..I+2 and nothing else |
| Chip8Instructions.StoreRegisters | tomo/src/chip8/processor.rs:383-389 | Fx55 writes all 18 registers to ram[I..I+18], whatever x is; nothing else changes |
| Chip8Instructions.LoadRegisters | tomo/src/chip8/processor.rs:390-397 | Fx65 loads all 18 registers from ram[I..I+18], whatever x is |
| Chip8Instructions.StoreThenLoad | tomo/src/chip8/processor.rs:383-397 | Fx55 then Fx65 at the same I leaves the registers as they were |
| Chip8Lifecycle.TimersCountDown | tomo/src/chip8/processor.rs:427-433 | DT and ST drop by one when positive and stay at 0 otherwise; nothing else changes |
| Chip8Lifecycle.TickFetchesAtPc | tomo/src/chip8/processor.rs:426-437 | `tick` is the countdown, then `execute` of the word at the unchanged pc |
| Chip8Lifecycle.BeepCountsDown | tomo/src/chip8/processor.rs:426-442 | `should_beep` exactly when ST > 0, and after the countdown exactly when ST was > 1 |
| Chip8Lifecycle.PressMarksKey | tomo/src/chip8/processor.rs:445-448 | `key_press(k)` marks k down, makes k current and changes nothing else |
| Chip8Lifecycle.UpClearsKey | tomo/src/chip8/processor.rs:451-458 | `key_up(k)` marks k up; the current key becomes None exactly when it was None or k |
| Chip8Lifecycle.PressThenUp | tomo/src/chip8/processor.rs:445-458 | press then release of k clears it; releasing another key keeps k current |
| Chip8Lifecycle.ResetIsInitial | tomo/src/chip8/processor.rs:460-483 | `reset` gives the machine `new` builds, except I, keys and the current key, which it keeps |
| Chip8Lifecycle.ResetIdempotent | tomo/src/chip8/processor.rs:460-483 | resetting twice is resetting once |
| Chip8Lifecycle.ResetMemory | tomo/src/chip8/processor.rs:460-483 | after `reset`: FONT at 0..80, zero elsewhere, pc 0x200, sp 0, registers, stack and pixels cleared |
| Chip8Lifecycle.LoadLayout | tomo/src/chip8/processor.rs:486-496 | after `load`: the data at 0x200, FONT at 0..80, zero elsewhere, otherwise the reset machine |
| Chip8Lifecycle.InitialIsReset | tomo/src/chip8/processor.rs:115-138 | the machine `new` builds is a fixed point of `reset` |
| AlterSemantics.AllCells | tomo/alter_chip/cpu.rs:109 | `(0..HOEHE*BREITE).collect()`: 2048 entries, entry k equal to k |
| AlterSemantics.ExecSystem | tomo/alter_chip/cpu.rs:104-126 | 00E0/00EE leave keys alone, and any other 0___ is a failure with no change |
| AlterSemantics.ExecBasic | tomo/alter_chip/cpu.rs:127-242 | the 1nnn–Cxkk arms succeed with no edited pixels and leave keys alone |
| AlterSemantics.ExecAlu | tomo/alter_chip/cpu.rs:163-221 | the 8xy_ arms leave keys alone, and an unknown n is a failure with no change |
| AlterSemantics.WrapX | tomo/alter_chip/cpu.rs:256-260 | the wrapped column is below 64 |
| AlterSemantics.WrapY | tomo/alter_chip/cpu.rs:262-266 | the wrapped row is below 32 |
| AlterSemantics.DisplayIndex | tomo/alter_chip/cpu.rs:268 | `wy * BREITE + wx` is a valid cell index |
| AlterSemantics.DrawBit | tomo/alter_chip/cpu.rs:254-296 | one bit adds exactly one edited index |
| AlterSemantics.DrawRowBits | tomo/alter_chip/cpu.rs:253-297 | one row adds one edited index per bit, 8 in all |
| AlterSemantics.RowBitsKeep | tomo/alter_chip/cpu.rs:253-297 | a row keeps the earlier edited indices and keeps VF at 0 or 1 |
| AlterSemantics.DrawSpriteRows | tomo/alter_chip/cpu.rs:251-300 | n rows add 8 · n edited indices, and earlier indices are kept |
| AlterSemantics.ExecDraw | tomo/alter_chip/cpu.rs:243-301 | Dxyn succeeds, changes only registers and pixels, keeps every register but VF, leaves VF at 0 or 1 and reports 8 · n valid indices |
| AlterSemantics.ExecKeys | tomo/alter_chip/cpu.rs:302-329 | Ex9E/ExA1 leave keys alone, and any other Ex__ is a failure with no change |
| AlterSemantics.ExecMisc | tomo/alter_chip/cpu.rs:330-393 | the Fx__ arms leave keys alone, and an unknown Fx__ is a failure with no change |
| AlterSemantics.Execute | tomo/alter_chip/cpu.rs:89-408 | no arm changes keys or the current key, and a failure is the unchanged machine with no edited pixels |
| AlterCpu.PixelValue | tomo/alter_chip/cpu.rs:254 | `(byte & (0x80 >> bit)) >> (7 - bit)` is 1 exactly when sprite bit `bit` is set, else 0 |
| AlterCpu.Cpu.constructor | tomo/alter_chip/cpu.rs:47-71 | `new` builds the initial machine: pc 0x200, FONT at 0..80, everything else zero, a blank display |
| AlterCpu.Cpu.SetFont | tomo/alter_chip/cpu.rs:436-440 | the loop writes FONT to mem[0..80] and nothing else |
| AlterCpu.Cpu.ShouldBeep | tomo/alter_chip/cpu.rs:74-76 | returns whether ST is positive |
| AlterCpu.Cpu.Fetch | tomo/alter_chip/cpu.rs:79-86 | returns the word of `Fetch` and leaves the machine with pc advanced as `Fetch` says |
| AlterCpu.Cpu.Execute | tomo/alter_chip/cpu.rs:89-408 | moves the arrays as `Execute` says and returns its `Output` |
| AlterCpu.Cpu.ExecuteSystem | tomo/alter_chip/cpu.rs:104-126 | 00E0 clears and reports all 2048 indices, 00EE pops, otherwise failure |
| AlterCpu.Cpu.ExecuteBasic | tomo/alter_chip/cpu.rs:127-242 | the arms 1nnn–Cxkk, as `ExecBasic` |
| AlterCpu.Cpu.ExecuteFlow | tomo/alter_chip/cpu.rs:127-236 | 1nnn, 2nnn (pre-increment push) and Bnnn, as `ExecBasic` |
| AlterCpu.Cpu.ExecuteSkip | tomo/alter_chip/cpu.rs:137-227 | 3xkk/4xkk/5xy_/9xy_ add 2 to pc when their test holds, as `ExecBasic` |
| AlterCpu.Cpu.ExecuteLoad | tomo/alter_chip/cpu.rs:155-242 | 6xkk, 7xkk, Annn and Cxkk, as `ExecBasic` |
| AlterCpu.Cpu.ExecuteAlu | tomo/alter_chip/cpu.rs:163-221 | the 8xy_ match, as `ExecAlu` |
| AlterCpu.Cpu.ExecuteLogic | tomo/alter_chip/cpu.rs:165-180 | 8xy0–8xy3 leave the registers as `LogicOp` |
| AlterCpu.Cpu.ExecuteSum | tomo/alter_chip/cpu.rs:181-188 | 8xy4/8xy5 leave the registers as `SumOp` |
| AlterCpu.Cpu.ExecuteFlagged | tomo/alter_chip/cpu.rs:189-211 | 8xy6/8xy7/8xyE leave the registers as `FlagOp` |
| AlterCpu.Cpu.Copy | tomo/alter_chip/cpu.rs:165-168 | Vx = Vy |
| AlterCpu.Cpu.Or | tomo/alter_chip/cpu.rs:169-172 | Vx becomes Vx OR Vy |
| AlterCpu.Cpu.And | tomo/alter_chip/cpu.rs:173-176 | Vx &= Vy |
| AlterCpu.Cpu.Xor | tomo/alter_chip/cpu.rs:177-180 | Vx ^= Vy |
| AlterCpu.Cpu.Add | tomo/alter_chip/cpu.rs:181-184 | Vx += Vy with VF untouched |
| AlterCpu.Cpu.Sub | tomo/alter_chip/cpu.rs:185-188 | Vx −= Vy with VF untouched |
| AlterCpu.Cpu.ShiftRight | tomo/alter_chip/cpu.rs:189-195 | VF = lsb, then Vx >>= 1 |
| AlterCpu.Cpu.SubReversed | tomo/alter_chip/cpu.rs:196-205 | VF = (Vy > Vx), then Vx = Vy − Vx |
| AlterCpu.Cpu.ShiftLeft | tomo/alter_chip/cpu.rs:206-211 | VF = msb, then Vx <<= 1 |
| AlterCpu.Cpu.ExecuteDraw | tomo/alter_chip/cpu.rs:243-301 | clears VF and runs the row loop, as `ExecDraw` |
| AlterCpu.Cpu.DrawRows | tomo/alter_chip/cpu.rs:251-300 | the row loop with its `px`/`py` counters leaves registers, display and edited list as `DrawSpriteRows` |
| AlterCpu.Cpu.DrawNextRow | tomo/alter_chip/cpu.rs:251-299 | one pass of the row loop advances the canvas by one step of `RowsAfter` (row drawn from the column Vx holds now) |
| AlterCpu.Cpu.DrawRow | tomo/alter_chip/cpu.rs:253-297 | the bit loop, as `DrawRowBits` |
| AlterCpu.Cpu.DrawPixel | tomo/alter_chip/cpu.rs:254-294 | one bit: value, wrap, index, collision, XOR and push, as `DrawBit` |
| AlterCpu.Cpu.WrapColumn | tomo/alter_chip/cpu.rs:256-260 | the conditional modulo equals `WrapX` |
| AlterCpu.Cpu.WrapRow | tomo/alter_chip/cpu.rs:262-266 | the conditional modulo equals `WrapY` |
| AlterCpu.Cpu.FlagCollision | tomo/alter_chip/cpu.rs:279-285 | VF becomes 1 when it was 0, the bit is set and the cell is lit; otherwise the registers are unchanged |
| AlterCpu.Cpu.TogglePixel | tomo/alter_chip/cpu.rs:287-293 | the cell becomes its old value XOR the bit; no other cell changes |
| AlterCpu.Cpu.ExecuteKeys | tomo/alter_chip/cpu.rs:302-329 | the Ex__ match, as `ExecKeys` |
| AlterCpu.Cpu.ExecuteMisc | tomo/alter_chip/cpu.rs:330-393 | the Fx__ match, as `ExecMisc` |
| AlterCpu.Cpu.StoreBcd | tomo/alter_chip/cpu.rs:363-371 | the reversed digit loop writes the three decimal digits of Vx at i..i+2 |
| AlterCpu.Cpu.StoreRegisters | tomo/alter_chip/cpu.rs:372-377 | the loop writes V0..V(x−1) at i.. and nothing for x = 0 |
| AlterCpu.Cpu.LoadRegisters | tomo/alter_chip/cpu.rs:378-383 | the loop loads V0..V(x−1) from i.. and keeps Vx..VF |
| AlterCpu.Cpu.Tick | tomo/alter_chip/cpu.rs:479-492 | countdown, fetch, execute, as `Tick`, and its `Output` |
| AlterCpu.Cpu.CountDownTimers | tomo/alter_chip/cpu.rs:480-486 | DT and ST as `DecrementTimers` |
| AlterCpu.Cpu.CountDownDelay | tomo/alter_chip/cpu.rs:480-482 | DT drops by one when positive; nothing else changes |
| AlterCpu.Cpu.CountDownSound | tomo/alter_chip/cpu.rs:484-486 | ST drops by one when positive; nothing else changes |
| AlterCpu.Cpu.KeyPress | tomo/alter_chip/cpu.rs:447-450 | as `KeyPress` |
| AlterCpu.Cpu.KeyUp | tomo/alter_chip/cpu.rs:453-460 | as `KeyUp` |
| AlterCpu.Cpu.Reset | tomo/alter_chip/cpu.rs:410-433 | the zeroing loops, sp 0, pc 0, display cleared and font reloaded, as `Reset` |
| AlterCpu.Cpu.LoadRom | tomo/alter_chip/cpu.rs:463-476 | `reset`, pc 0x200, the ROM copied (nothing for `None`), and its length returned |
| AlterCpu.Cpu.CopyRom | tomo/alter_chip/cpu.rs:468-473 | the byte loop writes the data at pc in order and counts it |
| AlterDraw.WrapIsMod | tomo/alter_chip/cpu.rs:256-266 | the wrapped column is px mod 64 and the wrapped row is py mod 32 |
| AlterDraw.IndexIsTarget | tomo/alter_chip/cpu.rs:256-299 | the index of bit `bit` of row `row` is the reference blit's target for the sprite at (Vx, Vy) |
| AlterDraw.TargetsAt | tomo/alter_chip/cpu.rs:294 | entry k of the edited list is the target of bit k mod 8 of row k / 8 |
| AlterDraw.DrawIsBlit | tomo/alter_chip/cpu.rs:243-301 | for x, y ≠ 15, Dxyn sets the display to the reference blit and VF to its collision flag, changes nothing else and reports the 8 · n targets; covered cells flip, others stay, VF = 1 exactly when a set bit hit a lit pixel |
| AlterProperties.FetchWord | tomo/alter_chip/cpu.rs:79-86 | the word is `mem[pc]·256 + mem[pc+1]` and pc advances by 2, nothing else |
| AlterProperties.TimersCountDown | tomo/alter_chip/cpu.rs:480-486 | DT and ST drop by one when positive and stay at 0 otherwise; nothing else changes |
| AlterProperties.TickFetchesAtPc | tomo/alter_chip/cpu.rs:479-492 | `tick` executes the word at the old pc with pc already advanced |
| AlterProperties.BeepCountsDown | tomo/alter_chip/cpu.rs:74-76 | `should_beep` exactly when ST > 0, and after the countdown exactly when ST was > 1 |
| AlterProperties.SuccessIsKnownArm | tomo/alter_chip/cpu.rs:103-407 | `execute` succeeds exactly when the opcode matches an arm of its match |
| AlterProperties.KnownArmFits | tomo/alter_chip/cpu.rs:103-393 | every accepted opcode fits some entry of the flat pattern table |
| AlterProperties.UnknownFitsNone | tomo/alter_chip/cpu.rs:394-401 | an opcode that is not accepted fits no entry |
| AlterProperties.SuccessIffRecognized | tomo/alter_chip/cpu.rs:103-407 | success exactly when the opcode is in the table |
| AlterProperties.InvalidOpcode | tomo/alter_chip/cpu.rs:116-401 | an unknown pattern returns `success = false`, no edited pixels and no change |
| AlterProperties.CurrentIsKnown | tomo/alter_chip/cpu.rs:103-393 | every opcode the current processor recognises is accepted here too |
| AlterProperties.AcceptsMoreThanCurrent | tomo/alter_chip/cpu.rs:103-154 | 0x01E0 and 0x5121 are accepted here but not by the current processor, because this CPU matches only the low byte of 0___ and ignores n in 5xy_ |
| AlterProperties.SkipOnByte | tomo/alter_chip/cpu.rs:137-148 | 3xkk/4xkk add 2 to pc exactly when their test holds; nothing else changes |
| AlterProperties.SkipOnRegisters | tomo/alter_chip/cpu.rs:149-227 | 5xy_/9xy_ add 2 to pc exactly when their test holds |
| AlterProperties.SkipOnKey | tomo/alter_chip/cpu.rs:302-319 | Ex9E/ExA1 add 2 to pc exactly when key Vx is down/up |
| AlterProperties.Jumps | tomo/alter_chip/cpu.rs:127-236 | 1nnn sets pc to nnn and Bnnn to V0 + nnn; nothing else changes |
| AlterProperties.Call | tomo/alter_chip/cpu.rs:131-136 | 2nnn increments sp, stores the advanced pc at the new `stack[sp]` and jumps; `stack[0]` is never written |
| AlterProperties.Return | tomo/alter_chip/cpu.rs:111-115 | 00EE loads pc from `stack[sp]`, then decrements sp |
| AlterProperties.CallThenReturn | tomo/alter_chip/cpu.rs:111-136 | CALL then RET restores pc and sp; only the used stack slot differs |
| AlterProperties.ClearScreen | tomo/alter_chip/cpu.rs:106-110 | 00E0 clears every pixel and reports the indices 0..2048 in order |
| AlterProperties.ExecRegisterOp | tomo/alter_chip/cpu.rs:181-211 | 8xy4/5/6/7/E set the registers to `AluOp` and change nothing else |
| AlterProperties.AddByte | tomo/alter_chip/cpu.rs:155-162 | 6xkk and 7xkk both add kk to Vx; only Vx changes |
| AlterProperties.AddByteStep | tomo/alter_chip/cpu.rs:155-162 | the same, with the new Vx and its no-overflow condition written out |
| AlterProperties.LoadIsAdd | tomo/alter_chip/cpu.rs:155-158 | 6xkk leaves kk in Vx exactly when Vx was 0 |
| AlterProperties.AddRegisters | tomo/alter_chip/cpu.rs:181-184 | 8xy4 stores Vx + Vy and touches no other register, VF included |
| AlterProperties.SubRegisters | tomo/alter_chip/cpu.rs:185-188 | 8xy5 stores Vx − Vy and touches no other register, VF included |
| AlterProperties.AddSubNoFlag | tomo/alter_chip/cpu.rs:181-188 | 8xy4/8xy5 change only Vx |
| AlterProperties.ShiftRegisters | tomo/alter_chip/cpu.rs:189-211 | for x ≠ 15: VF = the lsb and Vx halves, or VF = the msb and Vx doubles mod 256 |
| AlterProperties.ShiftSetsFlag | tomo/alter_chip/cpu.rs:189-211 | the same for the whole machine |
| AlterProperties.SubtractReversedRegisters | tomo/alter_chip/cpu.rs:196-205 | for x, y ≠ 15: VF = 1 exactly when Vy > Vx, and Vx = Vy − Vx |
| AlterProperties.SubtractReversed | tomo/alter_chip/cpu.rs:196-205 | the same for the whole machine |
| AlterProperties.RandomMasked | tomo/alter_chip/cpu.rs:237-242 | Cxkk stores `rnd & kk` and changes nothing else |
| AlterProperties.SetIndex | tomo/alter_chip/cpu.rs:228-231 | Annn sets i to nnn only |
| AlterProperties.TimerMoves | tomo/alter_chip/cpu.rs:332-353 | Fx07 copies DT into Vx, Fx15 copies Vx into DT, Fx18 copies Vx into ST |
| AlterProperties.DelayRoundTrip | tomo/alter_chip/cpu.rs:332-349 | Fx15 then Fx07 copies Vx to Vy through DT |
| AlterProperties.AddToIndex | tomo/alter_chip/cpu.rs:354-357 | Fx1E adds Vx to i and leaves VF alone |
| AlterProperties.FontAddress | tomo/alter_chip/cpu.rs:358-362 | Fx29 sets i to 5 · x (the register number), inside the font |
| AlterProperties.GlyphAt | tomo/alter_chip/cpu.rs:358-362 | with the font loaded, mem[5x..5x+5] is glyph x |
| AlterProperties.WaitWithoutKey | tomo/alter_chip/cpu.rs:336-344 | Fx0A with no key moves pc back by 2 and changes nothing else |
| AlterProperties.WaitRefetches | tomo/alter_chip/cpu.rs:336-344 | a blocked Fx0A tick only counts the timers down, and the next fetch reads Fx0A again |
| AlterProperties.WaitWithKey | tomo/alter_chip/cpu.rs:340-341 | Fx0A with a current key stores it in Vx |
| AlterProperties.DigitsAreBcd | tomo/alter_chip/cpu.rs:366-370 | the reversed `% 10`/`/ 10` loop yields the same digits as hundreds/tens/ones |
| AlterProperties.StoreBcd | tomo/alter_chip/cpu.rs:363-371 | Fx33 writes three digits below 10 whose value is Vx at i..i+2; nothing else changes |
| AlterProperties.StoreRegisters | tomo/alter_chip/cpu.rs:372-377 | Fx55 writes V0..V(x−1) at i, x excluded; the rest of memory is unchanged |
| AlterProperties.LoadRegisters | tomo/alter_chip/cpu.rs:378-383 | Fx65 loads V0..V(x−1) from i; Vx and above keep their values |
| AlterProperties.StoreThenLoad | tomo/alter_chip/cpu.rs:372-383 | Fx55 then Fx65 with the same x leaves the registers as they were |
| AlterProperties.BlockMoveOmitsVx | tomo/alter_chip/cpu.rs:372-383 | Fx55 leaves the byte at I + x as it was, and Fx65 leaves Vx as it was |
| AlterProperties.PressMarksKey | tomo/alter_chip/cpu.rs:447-450 | `key_press(k)` marks k down, makes it current and changes nothing else |
| AlterProperties.UpClearsKey | tomo/alter_chip/cpu.rs:453-460 | `key_up(k)` marks k up; the current key becomes None exactly when it was None or k |
| AlterProperties.PressThenUp | tomo/alter_chip/cpu.rs:447-460 | press then release clears k; releasing another key keeps k current |
| AlterProperties.ResetLayout | tomo/alter_chip/cpu.rs:410-433 | after `reset`: FONT at 0..80, zero elsewhere, pc 0, sp 0, registers, stack and pixels cleared |
| AlterProperties.ResetIdempotent | tomo/alter_chip/cpu.rs:410-433 | resetting twice is resetting once |
| AlterProperties.LoadRomLayout | tomo/alter_chip/cpu.rs:463-476 | after `load_rom`: the ROM at 0x200, FONT at 0..80, zero elsewhere, pc 0x200, otherwise the reset machine |
| AlterProperties.LoadNothingIsInitial | tomo/alter_chip/cpu.rs:463-476 | `load_rom(None)` on a new CPU gives the new CPU back |
| Corrections.BlockIsWaitWithoutKey | tomo/src/chip8/processor.rs:338-350 | of all opcodes, only Fx0A with no current key returns `Block` |
| Corrections.IntendedExecAgrees | tomo/src/chip8/processor.rs:147-415 | the corrected `execute` equals the code's `execute` on every opcode and state except a blocked Fx0A |
| Corrections.IntendedWaitRefetches | tomo/src/chip8/processor.rs:338-350 | corrected Fx0A with no key changes nothing at all, so the next fetch reads Fx0A again (also at pc 0) |
| Corrections.IntendedExecuteAgrees | tomo/alter_chip/cpu.rs:89-408 | the corrected `execute` of the older CPU equals the code's on every opcode but 6xkk, Fx29, Fx55 and Fx65 |
| Corrections.IntendedLoadByte | tomo/alter_chip/cpu.rs:155-158 | corrected 6xkk: Vx becomes kk whatever it held, and nothing else changes |
| Corrections.IntendedFontAddress | tomo/alter_chip/cpu.rs:358-362 | corrected Fx29: I = 5 · Vx, and with the font loaded and Vx < 16 the five bytes at I are the glyph of Vx |
| Corrections.IntendedStoreRegisters | tomo/alter_chip/cpu.rs:372-377 | corrected Fx55: V0..Vx, Vx included, land at I, and the rest of memory is unchanged |
| Corrections.IntendedLoadRegisters | tomo/alter_chip/cpu.rs:378-383 | corrected Fx65: V0..Vx are loaded from I, and the registers above Vx are kept |
| Corrections.IntendedStoreThenLoad | tomo/alter_chip/cpu.rs:372-383 | corrected Fx55 then Fx65 with the same x restores all 16 registers, and only memory changes |

## Left out

- The `opcode` field of the current processor's `Output`: it only echoes the argument. `Processor.Execute` and `Processor.Tick` return the success flag alone.
- `random_byte` (`tomo/src/prelude.rs`, `tomo/src/chip8/utils.rs`): a float-based platform RNG. Both `execute`s take the byte as the parameter `rnd`.
- Logging (`log!`, `err!`): output only, with no effect on state.
- wasm-bindgen glue, the panic hook, and the `test_set_*`/`test_get_*` and `pc()`/`sp()` accessors: interop and test plumbing.
- The `Key` enum of the current processor is a Dafny datatype with `KeyIndex`. `Register` is the constants `V0`, `VF`, `DT` and `ST`.
- cpu.rs:269-277, the check `display_idx > HOEHE * BREITE`: the index is always below 2048 (`AlterSemantics.DisplayIndex`), so this branch cannot be reached and is not modelled.
- Rust panics are preconditions, not behaviour. An opcode or call that would panic (index out of range, `u8`/`u16` overflow in a debug build, `sp`/`pc` underflow) is outside every contract.
- Chip8Properties.DrawIsBlit: stated only for x, y ≠ 15. When x or y is 15, the coordinate follows VF as it changes, which the functions model but no blit lemma describes. For every x and y, `AlterSemantics.ExecDraw` and `Chip8Semantics.HandleDraw` still bound what changes.
- AlterDraw.DrawIsBlit: stated only for x, y ≠ 15, for the same reason.
- Chip8Instructions.SubWithFlag, Chip8Instructions.SubReversedWithFlag and Chip8Instructions.ShiftWithFlag: the value of Vx is stated only for x ≠ 15 (and y ≠ 15 for the subtractions). When x is 15, the flag write and the result write hit the same register, and the later write wins; `FlagOp` models that order.
- AlterProperties.ShiftRegisters, AlterProperties.ShiftSetsFlag, AlterProperties.SubtractReversedRegisters and AlterProperties.SubtractReversed: stated for x ≠ 15 (and y ≠ 15 for SUBN), for the same reason. For 8xy6 with x = 15, for example, the code leaves VF as its lsb shifted right, which is 0. `FlagOp` models that order.
- SpriteBlit.DrawExact: exact only for sprites no taller than the screen. A taller sprite wraps onto the same cells twice. Only the "uncovered cells unchanged" half holds for every height.

## Findings

The comments beside four arms promise something the code does not do. The classes and the
value semantics keep the code as written. `Corrections` holds each corrected definition with
the property the comment promises. It is proved equal to the code on every other opcode
(`Corrections.IntendedExecAgrees`, `Corrections.IntendedExecuteAgrees`).

| source | as written | input that shows it | evidently intended | confidence | as-written member | corrected member |
|---|---|---|---|---|---|---|
| tomo/src/chip8/processor.rs:338-350 | with no key, Fx0A returns `Block`, which does `pc -= 2`; `fetch` leaves pc on Fx0A, so pc lands on the instruction before it | 0x6005 (6xkk) at 0x200, 0xF00A at 0x202, no key: the next tick runs 0x6005 again, not Fx0A; Fx0A at pc 0 underflows | pc stays on Fx0A until a key is down, so that the next tick "lands here again" | high, not executed | Chip8Instructions.WaitRefetchesPrevious | Corrections.IntendedWaitRefetches |
| tomo/alter_chip/cpu.rs:155-158 | 6xkk adds kk to Vx | V1 = 3, opcode 0x6105: V1 becomes 8, not 5 | Vx := kk, as the comment "sets the register of Vx" says | high, not executed | AlterProperties.LoadIsAdd | Corrections.IntendedLoadByte |
| tomo/alter_chip/cpu.rs:358-362 | Fx29 sets I to 5 · x, from the register number | V1 = 0xA, opcode 0xF129: I = 5, the glyph of 1, not of A | I := 5 · Vx, the glyph of the value of Vx | high, not executed | AlterProperties.FontAddress | Corrections.IntendedFontAddress |
| tomo/alter_chip/cpu.rs:372-383 | the loops of Fx55 and Fx65 run over `0..vx`, so Vx is neither stored nor loaded | opcode 0xF255 stores V0 and V1 but not V2; 0xF055 stores nothing | V0 to Vx inclusive, as the comment "V0 bis VX" says | medium, not executed | AlterProperties.BlockMoveOmitsVx | Corrections.IntendedStoreRegisters |
