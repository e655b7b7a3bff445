/**
 * The current processor (tomo/src/chip8/processor.rs) as a class over arrays: memory, stack,
 * registers and keys are arrays updated in place, the display is a `Chip8Display.Display`
 * object. Every method is proved to leave the snapshot `State()` where the corresponding
 * function of Chip8Semantics puts it, so the lemmas stated on those functions hold for the
 * class.
 */
module Chip8Processor {
  import opened Bits
  import opened Chip8Semantics
  import Chip8Display

  // The three arms below state one FlagOp arm as the writes the method performs; keeping them
  // out of the methods keeps each method's proof to the array updates.

  lemma AddArm(r: seq<byte>, x: nat, y: nat, result: bv16)
    requires |r| == REGISTER_SIZE && x < 16 && y < 16
    requires result == r[x] as bv16 + r[y] as bv16
    ensures FlagOp(r, x, y, 0x4) == r[x := (result & 0xFF) as byte][VF := FlagByte(result > 0xFF)]
  {
  }

  lemma SubArm(r: seq<byte>, flagged: seq<byte>, x: nat, y: nat)
    requires |r| == REGISTER_SIZE && x < 16 && y < 16
    requires flagged == r[VF := FlagByte(r[x] > r[y])]
    ensures FlagOp(r, x, y, 0x5) == flagged[x := flagged[x] - flagged[y]]
  {
  }

  lemma SubReversedArm(r: seq<byte>, flagged: seq<byte>, x: nat, y: nat)
    requires |r| == REGISTER_SIZE && x < 16 && y < 16
    requires flagged == r[VF := FlagByte(r[y] > r[x])]
    ensures FlagOp(r, x, y, 0x7) == flagged[x := flagged[y] - flagged[x]]
  {
  }

  /** The colour byte Dxyn computes is the flag byte of the sprite bit; XOR with it toggles. */
  lemma ColorBit(b: byte, bit: nat, color: byte)
    requires bit < 8 && color == (b >> (7 - bit)) & 1
    ensures color == FlagByte(BitAt(b, bit))
    ensures forall lit: bool {:trigger FlagByte(lit)} :: (FlagByte(lit) ^ color == 1) == (lit != BitAt(b, bit))
  {
  }

  /** The three writes of Fx33 are the BCD block written at I. */
  lemma BcdWrites(ram: seq<byte>, at: nat, v: byte)
    requires |ram| == RAM_SIZE && at + 2 < RAM_SIZE
    ensures WriteBlock(ram, at, BcdDigits(v)) == ram[at := v / 100][at + 1 := (v % 100) / 10][at + 2 := v % 10]
  {
    var w := WriteBlock(ram, at, BcdDigits(v));
    assert w[at..at + 3] == BcdDigits(v);
    assert w[at] == w[at..at + 3][0] && w[at + 1] == w[at..at + 3][1] && w[at + 2] == w[at..at + 3][2];
  }

  class Processor {
    const ram: array<byte>
    const stack: array<u16>
    const registers: array<byte>
    const display: Chip8Display.Display
    const keys: array<bool>
    var pc: u16
    var iReg: u16
    var sp: u16
    var currentKey: Option<Key>

    ghost predicate Valid()
      reads this, display
    {
      && ram.Length == RAM_SIZE
      && stack.Length == STACK_SIZE
      && registers.Length == REGISTER_SIZE
      && keys.Length == KEY_COUNT
      && display.Valid()
      && ram != registers
      && keys != display.mem
    }

    /** The machine the fields hold, as a value. */
    ghost function State(): (m: Machine)
      reads this, ram, stack, registers, display, display.mem, keys
      requires Valid()
      ensures Wf(m)
    {
      Machine(ram[..], pc, iReg, stack[..], sp, registers[..], display.Cells(), keys[..], currentKey)
    }

    /** `Processor::new`: everything zero, pc at 0x200, no key, then `initialize` loads the font. */
    constructor ()
      ensures Valid() && fresh(ram) && fresh(stack) && fresh(registers) && fresh(keys)
      ensures fresh(display) && fresh(display.mem)
      ensures State() == Initial()
    {
      ram := new byte[RAM_SIZE](_ => 0);
      pc := PROGRAM_START;
      iReg := 0;
      stack := new u16[STACK_SIZE](_ => 0);
      sp := 0;
      registers := new byte[REGISTER_SIZE](_ => 0);
      display := new Chip8Display.Display();
      keys := new bool[KEY_COUNT](_ => false);
      currentKey := None;
      new;
      Initialize();
    }

    /** `initialize`: the 80 font bytes are copied to addresses 0 .. 79. */
    method Initialize()
      requires Valid()
      modifies ram
      ensures ram[..] == WithFont(old(ram[..]))
    {
      ghost var start := ram[..];
      for i := 0 to FONT_SIZE
        invariant ram[..] == WriteBlock(start, 0, Chip8Display.FONT[..i])
      {
        WriteBlockGrows(start, 0, Chip8Display.FONT, i);
        ram[i] := Chip8Display.FONT[i];
      }
      assert Chip8Display.FONT[..FONT_SIZE] == Chip8Display.FONT;
    }

    /** `fetch`: the big-endian word at pc; nothing changes. */
    method Fetch() returns (op: bv16)
      requires Valid() && pc as int + 1 < RAM_SIZE
      ensures op == Chip8Semantics.Fetch(State())
    {
      op := ((ram[pc] as bv16) << 8) | (ram[pc + 1] as bv16);
    }

    /** 00E0 and 00EE. */
    method ExecuteSystem(d: Decoded) returns (change: ProgramCounter, success: bool)
      requires Valid() && d.n0 == 0 && d.x < 16 && d.y < 16 && d.n < 16 && SystemDefined(State(), d)
      modifies this, display.mem
      ensures Valid() && Effect(State(), change, success) == HandleSystem(old(State()), d)
    {
      match (d.x, d.y, d.n)
      case (0x0, 0xE, 0x0) =>
        display.ClearDisplay();
        change, success := Next, true;
      case (0x0, 0xE, 0xE) =>
        sp := sp - 1;
        change, success := Jump(stack[sp]), true;
      case _ =>
        change, success := Next, false;
    }

    /** 1nnn .. Cxkk except 8xy_; `rnd` stands for the random byte of Cxkk. */
    method ExecuteBasic(d: Decoded, rnd: byte) returns (change: ProgramCounter, success: bool)
      requires Valid() && d.x < 16 && d.y < 16 && d.nnn < 0x1000 && BasicDefined(State(), d)
      modifies this, stack, registers
      ensures Valid() && Effect(State(), change, success) == HandleBasic(old(State()), d, rnd)
    {
      if d.n0 in {0x1, 0x2, 0xB} {
        change, success := ExecuteFlow(d, rnd);
      } else if d.n0 in {0x3, 0x4, 0x5, 0x9} {
        change, success := ExecuteSkip(d, rnd);
      } else if d.n0 in {0x6, 0x7, 0xA, 0xC} {
        change, success := ExecuteLoad(d, rnd);
      } else {
        change, success := Next, false;
      }
    }

    /** 1nnn, 2nnn and Bnnn. */
    method ExecuteFlow(d: Decoded, rnd: byte) returns (change: ProgramCounter, success: bool)
      requires Valid() && d.x < 16 && d.y < 16 && d.nnn < 0x1000 && BasicDefined(State(), d)
      requires d.n0 in {0x1, 0x2, 0xB}
      modifies this, stack
      ensures Valid() && Effect(State(), change, success) == HandleBasic(old(State()), d, rnd)
    {
      success := true;
      if d.n0 == 0x1 {
        change := Jump(d.nnn);
      } else if d.n0 == 0x2 {
        stack[sp] := (pc as int + OPCODE_SIZE) % 0x1_0000;
        sp := sp + 1;
        change := Jump(d.nnn);
      } else {
        change := Jump(d.nnn + registers[V0] as int);
      }
    }

    /** 3xkk, 4xkk, 5xy0 and 9xy0: nothing changes, only the outcome depends on the registers. */
    method ExecuteSkip(d: Decoded, rnd: byte) returns (change: ProgramCounter, success: bool)
      requires Valid() && d.x < 16 && d.y < 16 && d.nnn < 0x1000 && BasicDefined(State(), d)
      requires d.n0 in {0x3, 0x4, 0x5, 0x9}
      ensures Effect(State(), change, success) == HandleBasic(State(), d, rnd)
    {
      success := true;
      if d.n0 == 0x3 {
        change := SkipIf(registers[d.x] == d.kk);
      } else if d.n0 == 0x4 {
        change := SkipIf(registers[d.x] != d.kk);
      } else if d.n != 0 {
        change, success := Next, false;
      } else if d.n0 == 0x5 {
        change := SkipIf(registers[d.x] == registers[d.y]);
      } else {
        change := SkipIf(registers[d.x] != registers[d.y]);
      }
    }

    /** 6xkk, 7xkk, Annn and Cxkk. */
    method ExecuteLoad(d: Decoded, rnd: byte) returns (change: ProgramCounter, success: bool)
      requires Valid() && d.x < 16 && d.y < 16 && d.nnn < 0x1000 && BasicDefined(State(), d)
      requires d.n0 == 0x6 || d.n0 == 0x7 || d.n0 == 0xA || d.n0 == 0xC
      modifies this, registers
      ensures Valid() && Effect(State(), change, success) == HandleBasic(old(State()), d, rnd)
    {
      change, success := Next, true;
      if d.n0 == 0x6 {
        registers[d.x] := d.kk;
      } else if d.n0 == 0x7 {
        AddByte(d.x, d.kk);
      } else if d.n0 == 0xA {
        iReg := d.nnn;
      } else {
        RandomByte(d.x, d.kk, rnd);
      }
    }

    /** 7xkk: the u16 sum cut back to u8. */
    method AddByte(x: nat, kk: byte)
      requires Valid() && x < 16
      modifies registers
      ensures registers[..] == old(registers[..])[x := old(registers[x]) + kk]
    {
      registers[x] := registers[x] + kk;
    }

    /** Cxkk. */
    method RandomByte(x: nat, kk: byte, rnd: byte)
      requires Valid() && x < 16
      modifies registers
      ensures registers[..] == old(registers[..])[x := rnd & kk]
    {
      registers[x] := rnd & kk;
    }

    /** 8xy0 .. 8xyE; an 8xy_ with another last nibble is unrecognised. */
    method ExecuteAlu(d: Decoded) returns (change: ProgramCounter, success: bool)
      requires Valid() && d.x < 16 && d.y < 16
      modifies registers
      ensures Valid() && Effect(State(), change, success) == HandleAlu(old(State()), d)
    {
      var x, y := d.x, d.y;
      change, success := Next, true;
      match d.n
      case 0x0 => registers[x] := registers[y];
      case 0x1 => Or(x, y);
      case 0x2 => And(x, y);
      case 0x3 => Xor(x, y);
      case 0x4 => AddWithCarry(x, y);
      case 0x5 => Sub(x, y);
      case 0x6 => ShiftRight(x, y);
      case 0x7 => SubReversed(x, y);
      case 0xE => ShiftLeft(x, y);
      case _ => success := false;
    }

    /** 8xy1. */
    method Or(x: nat, y: nat)
      requires Valid() && x < 16 && y < 16
      modifies registers
      ensures registers[..] == LogicOp(old(registers[..]), x, y, 0x1)
    {
      registers[x] := registers[x] | registers[y];
    }

    /** 8xy2. */
    method And(x: nat, y: nat)
      requires Valid() && x < 16 && y < 16
      modifies registers
      ensures registers[..] == LogicOp(old(registers[..]), x, y, 0x2)
    {
      registers[x] := registers[x] & registers[y];
    }

    /** 8xy3. */
    method Xor(x: nat, y: nat)
      requires Valid() && x < 16 && y < 16
      modifies registers
      ensures registers[..] == LogicOp(old(registers[..]), x, y, 0x3)
    {
      registers[x] := registers[x] ^ registers[y];
    }

    /** 8xy4: the sum is taken in u16, cut to u8 for Vx, and VF is written last. */
    method AddWithCarry(x: nat, y: nat)
      requires Valid() && x < 16 && y < 16
      modifies registers
      ensures registers[..] == FlagOp(old(registers[..]), x, y, 0x4)
    {
      var vx, vy := registers[x] as bv16, registers[y] as bv16;
      var result := vx + vy;
      ghost var r := registers[..];
      AddArm(r, x, y, result);
      registers[x] := (result & 0xFF) as byte;
      registers[VF] := FlagByte(result > 0xFF);
    }

    /** 8xy5: VF is written first, then Vx - Vy is computed from the registers as they are then. */
    method Sub(x: nat, y: nat)
      requires Valid() && x < 16 && y < 16
      modifies registers
      ensures registers[..] == FlagOp(old(registers[..]), x, y, 0x5)
    {
      ghost var r := registers[..];
      registers[VF] := FlagByte(registers[x] > registers[y]);
      ghost var flagged := registers[..];
      registers[x] := registers[x] - registers[y];
      SubArm(r, flagged, x, y);
    }

    /** 8xy6. */
    method ShiftRight(x: nat, y: nat)
      requires Valid() && x < 16 && y < 16
      modifies registers
      ensures registers[..] == FlagOp(old(registers[..]), x, y, 0x6)
    {
      registers[VF] := registers[x] & 1;
      registers[x] := registers[x] >> 1;
    }

    /** 8xy7. */
    method SubReversed(x: nat, y: nat)
      requires Valid() && x < 16 && y < 16
      modifies registers
      ensures registers[..] == FlagOp(old(registers[..]), x, y, 0x7)
    {
      ghost var r := registers[..];
      registers[VF] := FlagByte(registers[y] > registers[x]);
      ghost var flagged := registers[..];
      registers[x] := registers[y] - registers[x];
      SubReversedArm(r, flagged, x, y);
    }

    /** 8xyE. */
    method ShiftLeft(x: nat, y: nat)
      requires Valid() && x < 16 && y < 16
      modifies registers
      ensures registers[..] == FlagOp(old(registers[..]), x, y, 0xE)
    {
      registers[VF] := (registers[x] & 0x80) >> 7;
      registers[x] := registers[x] << 1;
    }

    /** The registers and display cells, the part of the state Dxyn changes. */
    ghost function Canvas(): (c: Chip8Semantics.Canvas)
      reads this, registers, display, display.mem
      requires Valid()
      ensures CanvasWf(c)
    {
      Chip8Semantics.Canvas(registers[..], display.Cells())
    }

    /** Dxyn: VF is cleared, then row by row the sprite at I is XORed onto the display. */
    method ExecuteDraw(d: Decoded) returns (change: ProgramCounter, success: bool)
      requires Valid() && d.x < 16 && d.y < 16 && DrawDefined(State(), d)
      modifies registers, display.mem
      ensures Valid() && Effect(State(), change, success) == HandleDraw(old(State()), d)
    {
      ghost var m := State();
      registers[VF] := 0;
      assert Canvas() == Chip8Semantics.Canvas(m.registers[VF := 0], m.pixels);
      DrawRows(d.x, d.y, d.n);
      assert State() == m.(registers := Canvas().registers, pixels := Canvas().pixels);
      change, success := Next, true;
    }

    /** The outer loop of Dxyn: sprite rows 0 .. n-1, each on the screen row Vy + row wraps to. */
    method DrawRows(x: nat, y: nat, n: nat)
      requires Valid() && x < 16 && y < 16 && (n == 0 || iReg as int + n <= RAM_SIZE)
      modifies registers, display.mem
      ensures Valid() && Canvas() == DrawSpriteRows(old(Canvas()), ram[..], iReg as int, x, y, n)
    {
      ghost var start := Canvas();
      ghost var mem := ram[..];
      for row := 0 to n
        invariant ram[..] == mem
        invariant Canvas() == DrawSpriteRows(start, mem, iReg as int, x, y, row)
      {
        ghost var prev := Canvas();
        var screenRow := Wrap(registers[y], row, DISPLAY_HEIGHT);
        assert screenRow == Wrap(prev.registers[y], row, DISPLAY_HEIGHT);
        DrawRow(x, row, screenRow);
        assert DrawSpriteRows(start, mem, iReg as int, x, y, row + 1)
            == DrawRowBits(prev, mem, iReg as int, x, row, screenRow, 8);
      }
    }

    /** The inner loop of Dxyn: the eight bits of sprite row `row`, on screen row `screenRow`. */
    method DrawRow(x: nat, row: nat, screenRow: nat)
      requires Valid() && x < 16 && screenRow < DISPLAY_HEIGHT && iReg as int + row < RAM_SIZE
      modifies registers, display.mem
      ensures Valid() && Canvas() == DrawRowBits(old(Canvas()), ram[..], iReg as int, x, row, screenRow, 8)
    {
      ghost var prev := Canvas();
      ghost var mem := ram[..];
      for bit := 0 to 8
        invariant ram[..] == mem
        invariant Canvas() == DrawRowBits(prev, mem, iReg as int, x, row, screenRow, bit)
      {
        DrawPixel(x, row, screenRow, bit);
      }
    }

    /**
     * One pass of the inner loop: the column from the current Vx, the colour bit, VF |= colour
     * & pixel, then the pixel is read again and rewritten as pixel ^ colour.
     */
    method DrawPixel(x: nat, row: nat, screenRow: nat, bit: nat)
      requires Valid() && x < 16 && screenRow < DISPLAY_HEIGHT && bit < 8 && iReg as int + row < RAM_SIZE
      modifies registers, display.mem
      ensures Valid() && Canvas() == DrawBit(old(Canvas()), ram[..], iReg as int, x, row, screenRow, bit)
    {
      var col := (registers[x] as int + bit) % DISPLAY_WIDTH;
      var color := (ram[iReg as int + row] >> (7 - bit)) & 1;
      ColorBit(ram[iReg as int + row], bit, color);
      var lit := display.GetPixel(screenRow, col);
      registers[VF] := registers[VF] | (color & FlagByte(lit));
      lit := display.GetPixel(screenRow, col);
      display.SetPixel(screenRow, col, (FlagByte(lit) ^ color) == 1);
    }

    /** Ex9E and ExA1: the key numbered Vx is looked up; nothing changes. */
    method ExecuteKeys(d: Decoded) returns (change: ProgramCounter, success: bool)
      requires Valid() && d.x < 16 && KeysDefined(State(), d)
      ensures Effect(State(), change, success) == HandleKeys(State(), d)
    {
      success := true;
      if d.y == 0x9 && d.n == 0xE {
        change := SkipIf(keys[registers[d.x]]);
      } else if d.y == 0xA && d.n == 0x1 {
        change := SkipIf(!keys[registers[d.x]]);
      } else {
        change, success := Next, false;
      }
    }

    /** The Fx__ arms, dispatched on their last two nibbles. */
    method ExecuteMisc(d: Decoded) returns (change: ProgramCounter, success: bool)
      requires Valid() && d.x < 16 && MiscDefined(State(), d)
      modifies this, ram, registers
      ensures Valid() && Effect(State(), change, success) == HandleMisc(old(State()), d)
    {
      change, success := Next, true;
      if (d.y, d.n) == (0x0, 0x7) || (d.y, d.n) == (0x0, 0xA) || (d.y, d.n) == (0x1, 0x5) || (d.y, d.n) == (0x1, 0x8) {
        change := ExecuteTimers(d);
      } else if (d.y, d.n) == (0x1, 0xE) {
        AddToIndex(d.x);
      } else if (d.y, d.n) == (0x2, 0x9) {
        iReg := (registers[d.x] * 5) as int;
      } else if (d.y, d.n) == (0x3, 0x3) {
        StoreBcd(d.x);
      } else if (d.y, d.n) == (0x5, 0x5) {
        StoreRegisters();
      } else if (d.y, d.n) == (0x6, 0x5) {
        LoadRegisters();
      } else {
        success := false;
      }
    }

    /** Fx07, Fx0A, Fx15 and Fx18: moves between Vx and the timers, and waiting for a key. */
    method ExecuteTimers(d: Decoded) returns (change: ProgramCounter)
      requires Valid() && d.x < 16
      requires (d.y, d.n) == (0x0, 0x7) || (d.y, d.n) == (0x0, 0xA) || (d.y, d.n) == (0x1, 0x5) || (d.y, d.n) == (0x1, 0x8)
      modifies registers
      ensures Effect(State(), change, true) == HandleMisc(old(State()), d)
    {
      change := Next;
      if d.n == 0x7 {
        registers[d.x] := registers[DT];
      } else if d.n == 0xA {
        match currentKey {
          case Some(k) => registers[d.x] := KeyIndex(k) as byte;
          case None => change := Block;
        }
      } else if d.n == 0x5 {
        registers[DT] := registers[d.x];
      } else {
        registers[ST] := registers[d.x];
      }
    }

    /** Fx1E: I grows by Vx as a u16, then VF records whether I is past 0xF00. */
    method AddToIndex(x: nat)
      requires Valid() && x < 16 && iReg as int + registers[x] as int < 0x1_0000
      modifies this, registers
      ensures iReg as int == old(iReg) as int + old(registers[x]) as int
      ensures registers[..] == old(registers[..])[VF := FlagByte(iReg > 0xF00)]
      ensures unchanged(this`pc, this`sp, this`currentKey)
    {
      iReg := iReg + registers[x] as int;
      registers[VF] := FlagByte(iReg > 0xF00);
    }

    /** Fx33: the hundreds, tens and ones of Vx at I, I + 1 and I + 2. */
    method StoreBcd(x: nat)
      requires Valid() && x < 16 && iReg as int + 2 < RAM_SIZE
      modifies ram
      ensures ram[..] == WriteBlock(old(ram[..]), iReg as int, BcdDigits(registers[x]))
    {
      ghost var start := ram[..];
      var v := registers[x];
      ram[iReg] := v / 100;
      ram[iReg + 1] := (v % 100) / 10;
      ram[iReg + 2] := v % 10;
      BcdWrites(start, iReg as int, v);
    }

    /** Fx55: all 18 registers, DT and ST included, are copied to memory from I on. */
    method StoreRegisters()
      requires Valid() && iReg as int + REGISTER_SIZE <= RAM_SIZE
      modifies ram
      ensures ram[..] == WriteBlock(old(ram[..]), iReg as int, registers[..])
    {
      ghost var start := ram[..];
      for i := 0 to REGISTER_SIZE
        invariant ram[..] == WriteBlock(start, iReg as int, registers[..][..i])
      {
        WriteBlockGrows(start, iReg as int, registers[..], i);
        ram[iReg as int + i] := registers[i];
      }
      assert registers[..][..REGISTER_SIZE] == registers[..];
    }

    /** Fx65: all 18 registers are read back from memory from I on. */
    method LoadRegisters()
      requires Valid() && iReg as int + REGISTER_SIZE <= RAM_SIZE
      modifies registers
      ensures registers[..] == ram[iReg..iReg as int + REGISTER_SIZE]
    {
      for i := 0 to REGISTER_SIZE
        invariant forall k :: 0 <= k < i ==> registers[k] == ram[iReg as int + k]
      {
        registers[i] := ram[iReg as int + i];
      }
      assert forall k :: 0 <= k < REGISTER_SIZE ==> registers[..][k] == ram[iReg..iReg as int + REGISTER_SIZE][k];
    }

    /**
     * `execute`: the handler picked by the first nibble runs, then pc is moved as its outcome
     * says; `success` is false only for an unrecognised opcode.
     */
    method Execute(op: bv16, rnd: byte) returns (success: bool)
      requires Valid() && CanExecute(State(), op, rnd)
      modifies this, ram, stack, registers, display.mem
      ensures Valid() && State() == Exec(old(State()), op, rnd).m && success == Exec(old(State()), op, rnd).success
    {
      var change;
      change, success := Dispatch(op, rnd);
      match change {
        case Next => pc := pc + OPCODE_SIZE;
        case Skip => pc := pc + 2 * OPCODE_SIZE;
        case Block => pc := pc - OPCODE_SIZE;
        case Jump(addr) => pc := addr;
      }
    }

    /** The match of `execute` on the nibble tuple, grouped by the first nibble. */
    method Dispatch(op: bv16, rnd: byte) returns (change: ProgramCounter, success: bool)
      requires Valid() && HandlerDefined(State(), op)
      modifies this, ram, stack, registers, display.mem
      ensures Valid() && Effect(State(), change, success) == Handle(old(State()), op, rnd)
    {
      var d := Decode(op);
      match d.n0 {
        case 0x0 => change, success := ExecuteSystem(d);
        case 0x8 => change, success := ExecuteAlu(d);
        case 0xD => change, success := ExecuteDraw(d);
        case 0xE => change, success := ExecuteKeys(d);
        case 0xF => change, success := ExecuteMisc(d);
        case _ => change, success := ExecuteBasic(d, rnd);
      }
    }

    /** The timer part of `tick`: DT and ST are each decremented unless already zero. */
    method CountDownTimers()
      requires Valid()
      modifies registers
      ensures registers[..] == DecrementTimers(old(State())).registers
    {
      CountDown(DT);
      CountDown(ST);
    }

    /** One timer register is decremented unless it is zero. */
    method CountDown(t: nat)
      requires Valid() && t < REGISTER_SIZE
      modifies registers
      ensures registers[..] == old(registers[..])[t := if old(registers[t]) > 0 then old(registers[t]) - 1 else old(registers[t])]
    {
      if registers[t] > 0 {
        registers[t] := registers[t] - 1;
      }
    }

    /** `tick`: the timers count down, then the word at pc is fetched and executed. */
    method Tick(rnd: byte) returns (success: bool)
      requires Valid() && CanTick(State(), rnd)
      modifies this, ram, stack, registers, display.mem
      ensures Valid() && State() == Chip8Semantics.Tick(old(State()), rnd).m && success == Chip8Semantics.Tick(old(State()), rnd).success
    {
      CountDownTimers();
      assert State() == DecrementTimers(old(State()));
      var op := Fetch();
      success := Execute(op, rnd);
    }

    /** `should_beep`; nothing changes. */
    method ShouldBeep() returns (beep: bool)
      requires Valid()
      ensures beep == Chip8Semantics.ShouldBeep(State())
    {
      beep := registers[ST] > 0;
    }

    /** `key_press`. */
    method KeyPress(k: Key)
      requires Valid()
      modifies this, keys
      ensures Valid() && State() == Chip8Semantics.KeyPress(old(State()), k)
    {
      currentKey := Some(k);
      keys[KeyIndex(k)] := true;
    }

    /** `key_up`. */
    method KeyUp(k: Key)
      requires Valid()
      modifies this, keys
      ensures Valid() && State() == Chip8Semantics.KeyUp(old(State()), k)
    {
      if currentKey == Some(k) {
        currentKey := None;
      }
      keys[KeyIndex(k)] := false;
    }

    /** `reset`: memory, stack and registers are zeroed one cell at a time, the display cleared, the font reloaded. */
    method Reset()
      requires Valid()
      modifies this, ram, stack, registers, display.mem
      ensures Valid() && State() == Chip8Semantics.Reset(old(State()))
    {
      for i := 0 to RAM_SIZE
        modifies ram
        invariant forall k :: 0 <= k < i ==> ram[k] == 0
      {
        ram[i] := 0;
      }
      assert ram[..] == Zeros(RAM_SIZE);
      for i := 0 to STACK_SIZE
        modifies stack
        invariant ram[..] == Zeros(RAM_SIZE)
        invariant forall k :: 0 <= k < i ==> stack[k] == 0
      {
        stack[i] := 0;
      }
      assert stack[..] == ZeroWords(STACK_SIZE);
      for i := 0 to REGISTER_SIZE
        modifies registers
        invariant ram[..] == Zeros(RAM_SIZE) && stack[..] == ZeroWords(STACK_SIZE)
        invariant forall k :: 0 <= k < i ==> registers[k] == 0
      {
        registers[i] := 0;
      }
      assert registers[..] == Zeros(REGISTER_SIZE);
      sp := 0;
      pc := PROGRAM_START;
      display.ClearDisplay();
      Initialize();
    }

    /** `load`: a reset, then the bytes of `data` in order from 0x200 on; the count is returned. */
    method Load(data: seq<byte>) returns (count: nat)
      requires Valid() && PROGRAM_START as int + |data| <= RAM_SIZE
      modifies this, ram, stack, registers, display.mem
      ensures Valid() && State() == Chip8Semantics.Load(old(State()), data) && count == |data|
    {
      Reset();
      ghost var start := ram[..];
      count := 0;
      pc := PROGRAM_START;
      while count < |data|
        modifies ram
        invariant count <= |data|
        invariant ram[..] == WriteBlock(start, PROGRAM_START as int, data[..count])
      {
        WriteBlockGrows(start, PROGRAM_START as int, data, count);
        ram[pc as int + count] := data[count];
        count := count + 1;
      }
      assert data[..count] == data;
    }
  }
}
