/**
 * The older CPU (tomo/alter_chip/cpu.rs) as a class over arrays: memory, stack, registers and
 * keys are arrays updated in place, the display is an `AlterDisplay.Display` object. Every
 * method is proved to leave the snapshot `State()` where the corresponding function of
 * AlterSemantics puts it, and to return the `Output` that function returns, so the lemmas of
 * AlterProperties and AlterDraw hold for the class.
 */
module AlterCpu {
  import opened Bits
  import opened AlterSemantics
  import AlterDisplay
  import Chip8Semantics

  /** The value byte of Dxyn, `(byte & (0b1000_0000 >> bit)) >> (7 - bit)`: bit `bit` of the byte as 0 or 1. */
  function PixelValue(b: byte, bit: nat): (value: byte)
    requires bit < 8
    ensures value == FlagByte(BitAt(b, bit))
  {
    (b & (0x80 >> bit)) >> (7 - bit)
  }

  /** `old_status ^= value` on two flag bytes: the result is 1 exactly when the two flags differ. */
  lemma XorFlags(lit: bool, on: bool)
    ensures FlagByte(lit) ^ FlagByte(on) == FlagByte(lit != on)
  {
  }

  /** Writing one byte in front of a block: the block grows by that byte at its start. */
  lemma WriteBlockPrepend(mem: seq<byte>, at: nat, d: byte, block: seq<byte>)
    requires 1 <= at && at + |block| <= |mem|
    ensures WriteBlock(mem, at - 1, [d] + block) == WriteBlock(mem, at, block)[at - 1 := d]
  {
    var longer, shorter := WriteBlock(mem, at - 1, [d] + block), WriteBlock(mem, at, block);
    forall k | 0 <= k < |mem|
      ensures longer[k] == shorter[at - 1 := d][k]
    {
      if at - 1 <= k < at + |block| {
        assert longer[k] == longer[at - 1..at + |block|][k - (at - 1)];
        if at <= k {
          assert shorter[k] == shorter[at..at + |block|][k - at];
        }
      }
    }
  }

  /** 8xy7 as the two writes the source performs: VF first, then Vx from the flagged registers. */
  lemma SubReversedArm(r: seq<byte>, flagged: seq<byte>, x: nat, y: nat)
    requires |r| == REGISTER_COUNT && x < 16 && y < 16
    requires flagged == r[VF := FlagByte(r[y] > r[x])]
    requires FlagFirst(r, x, y, 0x7)[y] as int >= FlagFirst(r, x, y, 0x7)[x] as int
    ensures FlagOp(r, x, y, 0x7) == flagged[x := flagged[y] - flagged[x]]
  {
  }

  /** DrawBit spelled out for the cell index and the value byte the CPU computes. */
  lemma DrawBitAt(c: AlterSemantics.Canvas, mem: seq<byte>, i: nat, row: nat, px: byte, py: byte, bit: nat, index: nat, value: byte)
    requires CanvasWf(c) && |mem| == MEM_SIZE && i + row < MEM_SIZE && bit < 8
    requires index == DisplayIndex(WrapX(px), WrapY(py)) && value == FlagByte(BitAt(mem[i + row], bit))
    ensures DrawBit(c, mem, i, row, px, py, bit)
         == AlterSemantics.Canvas(
              if c.registers[VF] == 0 && value == 1 && c.pixels[index] then c.registers[VF := 1] else c.registers,
              c.pixels[index := c.pixels[index] != (value == 1)], c.edited + [index])
  {
  }

  /** One step of the inner Dxyn loop: the bits from `bit` on are bit `bit`, then the rest one column on. */
  lemma RowBitsStep(c: AlterSemantics.Canvas, mem: seq<byte>, i: nat, row: nat, px: byte, py: byte, bit: nat)
    requires CanvasWf(c) && |mem| == MEM_SIZE && i + row < MEM_SIZE && bit < 8
    ensures DrawRowBits(c, mem, i, row, px, py, bit)
         == DrawRowBits(DrawBit(c, mem, i, row, px, py, bit), mem, i, row, px + 1, py, bit + 1)
  {
  }

  /** One step of the outer Dxyn loop: row `row` drawn from column Vx, then the remaining rows one line down. */
  lemma SpriteRowsStep(c: AlterSemantics.Canvas, mem: seq<byte>, i: nat, x: nat, py: byte, row: nat, n: nat)
    requires CanvasWf(c) && |mem| == MEM_SIZE && (n == 0 || i + n <= MEM_SIZE) && x < 16 && row < n
    ensures DrawSpriteRows(c, mem, i, x, py, row, n)
         == DrawSpriteRows(DrawRowBits(c, mem, i, row, c.registers[x], py, 0), mem, i, x, py + 1, row + 1, n)
  {
  }

  /** The screen row of sprite row r: py0 moved on by one r times, in u8. */
  function RowY(py0: byte, r: nat): byte
  {
    if r == 0 then py0 else RowY(py0, r - 1) + 1
  }

  /** The canvas after sprite rows 0 .. r-1, each started at the column Vx holds when it starts. */
  function RowsAfter(c0: AlterSemantics.Canvas, mem: seq<byte>, i: nat, x: nat, py0: byte, r: nat): (c: AlterSemantics.Canvas)
    requires CanvasWf(c0) && |mem| == MEM_SIZE && x < 16 && (r == 0 || i + r <= MEM_SIZE)
    ensures CanvasWf(c)
  {
    if r == 0 then c0
    else
      var prev := RowsAfter(c0, mem, i, x, py0, r - 1);
      DrawRowBits(prev, mem, i, r - 1, prev.registers[x], RowY(py0, r - 1), 0)
  }

  /** Drawing rows r .. n-1 after rows 0 .. r-1 is drawing rows 0 .. n-1. */
  lemma {:induction false} RowsAfterThenRows(c0: AlterSemantics.Canvas, mem: seq<byte>, i: nat, x: nat, py0: byte, r: nat, n: nat)
    requires CanvasWf(c0) && |mem| == MEM_SIZE && x < 16 && (n == 0 || i + n <= MEM_SIZE) && r <= n
    ensures DrawSpriteRows(RowsAfter(c0, mem, i, x, py0, r), mem, i, x, RowY(py0, r), r, n)
         == DrawSpriteRows(c0, mem, i, x, py0, 0, n)
  {
    if r > 0 {
      RowsAfterThenRows(c0, mem, i, x, py0, r - 1, n);
      SpriteRowsStep(RowsAfter(c0, mem, i, x, py0, r - 1), mem, i, x, RowY(py0, r - 1), r - 1, n);
    }
  }

  class Cpu {
    const mem: array<byte>
    const stack: array<u16>
    const registers: array<byte>
    const display: AlterDisplay.Display
    const keys: array<bool>
    var pc: u16
    var i: u16
    var sp: u16
    var dt: byte
    var st: byte
    var currentKey: Option<byte>

    ghost predicate Valid()
      reads this, display
    {
      && mem.Length == MEM_SIZE
      && stack.Length == STACK_SIZE
      && registers.Length == REGISTER_COUNT
      && keys.Length == KEY_COUNT
      && display.Valid()
      && mem != registers
      && stack as object != registers && stack as object != keys && registers as object != keys
      && keys != display.mem
      && mem as object != display.mem && registers as object != display.mem && stack as object != display.mem
      && mem as object != keys && mem as object != stack
    }

    /** The machine the fields hold, as a value. */
    ghost function State(): (m: Machine)
      reads this, mem, stack, registers, display, display.mem, keys
      requires Valid()
      ensures Wf(m)
    {
      Machine(mem[..], pc, i, stack[..], sp, dt, st, registers[..], display.Cells(), keys[..], currentKey)
    }

    /** `Cpu::new`: everything zero, pc at 0x200, no key, then `set_font` loads the font. */
    constructor ()
      ensures Valid() && fresh(mem) && fresh(stack) && fresh(registers) && fresh(keys)
      ensures fresh(display) && fresh(display.mem)
      ensures State() == Initial()
    {
      mem := new byte[MEM_SIZE](_ => 0);
      pc := PROGRAM_START;
      i := 0;
      stack := new u16[STACK_SIZE](_ => 0);
      sp := 0;
      dt := 0;
      st := 0;
      registers := new byte[REGISTER_COUNT](_ => 0);
      display := new AlterDisplay.Display();
      keys := new bool[KEY_COUNT](_ => false);
      currentKey := None;
      new;
      SetFont();
    }

    /** `set_font`: the 80 font bytes are copied to addresses 0 .. 79. */
    method SetFont()
      requires Valid()
      modifies mem
      ensures mem[..] == WithFont(old(mem[..]))
    {
      ghost var start := mem[..];
      for k := 0 to FONT_SIZE
        invariant mem[..] == WriteBlock(start, 0, AlterDisplay.FONT[..k])
      {
        Chip8Semantics.WriteBlockGrows(start, 0, AlterDisplay.FONT, k);
        mem[k] := AlterDisplay.FONT[k];
      }
      assert AlterDisplay.FONT[..FONT_SIZE] == AlterDisplay.FONT;
    }

    /** `should_beep`; nothing changes. */
    method ShouldBeep() returns (beep: bool)
      requires Valid()
      ensures beep == AlterSemantics.ShouldBeep(State())
    {
      beep := st > 0;
    }

    /** `fetch`: the big-endian word at pc; pc moves past it. */
    method Fetch() returns (op: bv16)
      requires Valid() && pc as int + 1 < MEM_SIZE
      modifies this
      ensures Valid() && op == AlterSemantics.Fetch(old(State())).op && State() == AlterSemantics.Fetch(old(State())).m
    {
      ghost var m := State();
      op := ((mem[pc] as bv16) << 8) | (mem[pc + 1] as bv16);
      pc := pc + 2;
      assert State() == m.(pc := m.pc + 2);
    }

    /**
     * `execute`: the arm picked by the first nibble runs and says whether the opcode was
     * supported and which display cells it wrote.
     */
    method Execute(op: bv16, rnd: byte) returns (out: Output)
      requires Valid() && CanExecute(State(), op)
      modifies this, mem, stack, registers, display.mem
      ensures Valid() && Step(State(), out) == AlterSemantics.Execute(old(State()), op, rnd)
    {
      var d := Chip8Semantics.Decode(op);
      match d.n0 {
        case 0x0 => out := ExecuteSystem(d);
        case 0x8 => out := ExecuteAlu(d);
        case 0xD => out := ExecuteDraw(d);
        case 0xE => out := ExecuteKeys(d);
        case 0xF => out := ExecuteMisc(d);
        case _ => out := ExecuteBasic(d, rnd);
      }
    }

    /** 00E0 and 00EE, told apart by the low byte. */
    method ExecuteSystem(d: Chip8Semantics.Decoded) returns (out: Output)
      requires Valid() && d.n0 == 0 && FlowDefined(State(), d)
      modifies this, display.mem
      ensures Valid() && Step(State(), out) == ExecSystem(old(State()), d)
    {
      ghost var m := State();
      if d.kk == 0xE0 {
        display.ClearDisplay();
        out := Output(true, AllCells());
        assert State() == m.(pixels := AllOff(AlterDisplay.CELLS));
      } else if d.kk == 0xEE {
        pc := stack[sp];
        sp := sp - 1;
        out := Output(true, []);
        assert State() == m.(pc := m.stack[m.sp], sp := m.sp - 1);
      } else {
        out := Output(false, []);
      }
    }

    /** 1nnn .. Cxkk except 8xy_ and Dxyn; `rnd` stands for the random byte of Cxkk. */
    method ExecuteBasic(d: Chip8Semantics.Decoded, rnd: byte) returns (out: Output)
      requires Valid() && d.x < 16 && d.y < 16 && d.nnn < 0x1000 && BasicDefined(State(), d)
      requires d.n0 == 0x1 || d.n0 == 0x2 || d.n0 == 0x3 || d.n0 == 0x4 || d.n0 == 0x5 || d.n0 == 0x6
            || d.n0 == 0x7 || d.n0 == 0x9 || d.n0 == 0xA || d.n0 == 0xB || d.n0 == 0xC
      modifies this, stack, registers
      ensures Valid() && Step(State(), out) == ExecBasic(old(State()), d, rnd)
    {
      out := Output(true, []);
      if d.n0 == 0x1 || d.n0 == 0x2 || d.n0 == 0xB {
        ExecuteFlow(d);
      } else if d.n0 == 0x3 || d.n0 == 0x4 || d.n0 == 0x5 || d.n0 == 0x9 {
        ExecuteSkip(d);
      } else {
        ExecuteLoad(d, rnd);
      }
    }

    /** 1nnn, 2nnn and Bnnn. */
    method ExecuteFlow(d: Chip8Semantics.Decoded)
      requires Valid() && d.x < 16 && d.y < 16 && d.nnn < 0x1000 && BasicDefined(State(), d)
      requires d.n0 == 0x1 || d.n0 == 0x2 || d.n0 == 0xB
      modifies this, stack
      ensures Valid() && State() == ExecBasic(old(State()), d, 0).m
    {
      ghost var m := State();
      if d.n0 == 0x1 {
        pc := d.nnn;
        assert State() == m.(pc := d.nnn);
      } else if d.n0 == 0x2 {
        sp := sp + 1;
        stack[sp] := pc;
        pc := d.nnn;
        assert State() == m.(sp := m.sp + 1, stack := m.stack[m.sp + 1 := m.pc], pc := d.nnn);
      } else {
        pc := registers[0] as int + d.nnn;
        assert State() == m.(pc := m.registers[0] as int + d.nnn);
      }
    }

    /** 3xkk, 4xkk, 5xyn and 9xyn: pc moves past the next instruction when the condition holds. */
    method ExecuteSkip(d: Chip8Semantics.Decoded)
      requires Valid() && d.x < 16 && d.y < 16 && d.nnn < 0x1000 && BasicDefined(State(), d)
      requires d.n0 == 0x3 || d.n0 == 0x4 || d.n0 == 0x5 || d.n0 == 0x9
      modifies this
      ensures Valid() && State() == ExecBasic(old(State()), d, 0).m
    {
      ghost var m := State();
      var vx, vy := registers[d.x], registers[d.y];
      var skip := false;
      if d.n0 == 0x3 {
        if vx == d.kk { skip := true; }
      } else if d.n0 == 0x4 {
        if vx != d.kk { skip := true; }
      } else if d.n0 == 0x5 {
        if vx == vy { skip := true; }
      } else {
        if vx != vy { skip := true; }
      }
      if skip {
        pc := pc + 2;
        assert State() == m.(pc := m.pc + 2);
      }
    }

    /** 6xkk and 7xkk (both add kk to Vx), Annn and Cxkk. */
    method ExecuteLoad(d: Chip8Semantics.Decoded, rnd: byte)
      requires Valid() && d.x < 16 && d.y < 16 && d.nnn < 0x1000 && BasicDefined(State(), d)
      requires d.n0 == 0x6 || d.n0 == 0x7 || d.n0 == 0xA || d.n0 == 0xC
      modifies this, registers
      ensures Valid() && State() == ExecBasic(old(State()), d, rnd).m
    {
      ghost var m := State();
      if d.n0 == 0x6 || d.n0 == 0x7 {
        registers[d.x] := registers[d.x] + d.kk;
        assert State() == m.(registers := registers[..]);
      } else if d.n0 == 0xA {
        i := d.nnn;
        assert State() == m.(i := d.nnn);
      } else {
        registers[d.x] := rnd & d.kk;
        assert State() == m.(registers := registers[..]);
      }
    }

    /** 8xy0 .. 8xy7 and 8xyE; an 8xy_ with another last nibble is unsupported. */
    method ExecuteAlu(d: Chip8Semantics.Decoded) returns (out: Output)
      requires Valid() && d.x < 16 && d.y < 16 && AluDefined(registers[..], d)
      modifies registers
      ensures Valid() && Step(State(), out) == ExecAlu(old(State()), d)
    {
      ghost var m := State();
      if d.n < 0x4 {
        ExecuteLogic(d);
        out := Output(true, []);
      } else if d.n < 0x6 {
        ExecuteSum(d);
        out := Output(true, []);
      } else if d.n < 0x8 || d.n == 0xE {
        ExecuteFlagged(d);
        out := Output(true, []);
      } else {
        out := Output(false, []);
      }
      assert State() == m.(registers := registers[..]);
    }

    /** 8xy0 .. 8xy3. */
    method ExecuteLogic(d: Chip8Semantics.Decoded)
      requires Valid() && d.x < 16 && d.y < 16 && d.n < 0x4
      modifies registers
      ensures registers[..] == LogicOp(old(registers[..]), d.x, d.y, d.n)
    {
      match d.n {
        case 0x0 => Copy(d.x, d.y);
        case 0x1 => Or(d.x, d.y);
        case 0x2 => And(d.x, d.y);
        case 0x3 => Xor(d.x, d.y);
      }
    }

    /** 8xy4 and 8xy5. */
    method ExecuteSum(d: Chip8Semantics.Decoded)
      requires Valid() && d.x < 16 && d.y < 16 && (d.n == 0x4 || d.n == 0x5) && AluDefined(registers[..], d)
      modifies registers
      ensures registers[..] == SumOp(old(registers[..]), d.x, d.y, d.n)
    {
      if d.n == 0x4 {
        Add(d.x, d.y);
      } else {
        Sub(d.x, d.y);
      }
    }

    /** 8xy6, 8xy7 and 8xyE. */
    method ExecuteFlagged(d: Chip8Semantics.Decoded)
      requires Valid() && d.x < 16 && d.y < 16 && (d.n == 0x6 || d.n == 0x7 || d.n == 0xE) && AluDefined(registers[..], d)
      modifies registers
      ensures registers[..] == FlagOp(old(registers[..]), d.x, d.y, d.n)
    {
      if d.n == 0x6 {
        ShiftRight(d.x);
      } else if d.n == 0x7 {
        SubReversed(d.x, d.y);
      } else {
        ShiftLeft(d.x);
      }
    }

    /** 8xy0. */
    method Copy(x: nat, y: nat)
      requires Valid() && x < 16 && y < 16
      modifies registers
      ensures registers[..] == LogicOp(old(registers[..]), x, y, 0x0)
    {
      registers[x] := registers[y];
    }

    /** 8xy1. */
    method Or(x: nat, y: nat)
      requires Valid() && x < 16 && y < 16
      modifies registers
      ensures registers[..] == LogicOp(old(registers[..]), x, y, 0x1)
    {
      registers[x] := registers[x] | registers[y];
    }

    /** 8xy2. */
    method And(x: nat, y: nat)
      requires Valid() && x < 16 && y < 16
      modifies registers
      ensures registers[..] == LogicOp(old(registers[..]), x, y, 0x2)
    {
      registers[x] := registers[x] & registers[y];
    }

    /** 8xy3. */
    method Xor(x: nat, y: nat)
      requires Valid() && x < 16 && y < 16
      modifies registers
      ensures registers[..] == LogicOp(old(registers[..]), x, y, 0x3)
    {
      registers[x] := registers[x] ^ registers[y];
    }

    /** 8xy4: `+=` in u8, which must not wrap; VF is not touched. */
    method Add(x: nat, y: nat)
      requires Valid() && x < 16 && y < 16 && registers[x] as int + registers[y] as int <= 0xFF
      modifies registers
      ensures registers[..] == SumOp(old(registers[..]), x, y, 0x4)
    {
      registers[x] := registers[x] + registers[y];
    }

    /** 8xy5: `-=` in u8, which must not wrap; VF is not touched. */
    method Sub(x: nat, y: nat)
      requires Valid() && x < 16 && y < 16 && registers[x] as int >= registers[y] as int
      modifies registers
      ensures registers[..] == SumOp(old(registers[..]), x, y, 0x5)
    {
      registers[x] := registers[x] - registers[y];
    }

    /** 8xy6: VF gets the low bit of Vx, then Vx is shifted right. */
    method ShiftRight(x: nat)
      requires Valid() && x < 16
      modifies registers
      ensures registers[..] == FlagOp(old(registers[..]), x, 0, 0x6)
    {
      var lsb := registers[x] & 1;
      registers[VF] := lsb;
      registers[x] := registers[x] >> 1;
    }

    /** 8xy7: VF is 1 when Vy > Vx and 0 otherwise, then Vx becomes Vy - Vx from the registers as they are then. */
    method SubReversed(x: nat, y: nat)
      requires Valid() && x < 16 && y < 16
      requires FlagFirst(registers[..], x, y, 0x7)[y] as int >= FlagFirst(registers[..], x, y, 0x7)[x] as int
      modifies registers
      ensures registers[..] == FlagOp(old(registers[..]), x, y, 0x7)
    {
      ghost var r := registers[..];
      registers[VF] := FlagByte(registers[y] > registers[x]);
      ghost var flagged := registers[..];
      SubReversedArm(r, flagged, x, y);
      registers[x] := registers[y] - registers[x];
    }

    /** 8xyE: VF gets the high bit of Vx, then Vx is shifted left. */
    method ShiftLeft(x: nat)
      requires Valid() && x < 16
      modifies registers
      ensures registers[..] == FlagOp(old(registers[..]), x, 0, 0xE)
    {
      var msb := (registers[x] & 0x80) >> 7;
      registers[VF] := msb;
      registers[x] := registers[x] << 1;
    }

    /** The registers, the display cells and the cells written so far: the part of the state Dxyn changes. */
    ghost function Canvas(edited: seq<nat>): (c: AlterSemantics.Canvas)
      reads this, registers, display, display.mem
      requires Valid()
      ensures CanvasWf(c)
    {
      AlterSemantics.Canvas(registers[..], display.Cells(), edited)
    }

    /** Dxyn: VF is cleared, the start row is read from Vy, then the n sprite rows at I are drawn. */
    method ExecuteDraw(d: Chip8Semantics.Decoded) returns (out: Output)
      requires Valid() && d.x < 16 && d.y < 16 && d.n < 16 && DrawDefined(State(), d)
      modifies registers, display.mem
      ensures Valid() && Step(State(), out) == ExecDraw(old(State()), d)
    {
      ghost var m := State();
      registers[VF] := 0;
      assert Canvas([]) == AlterSemantics.Canvas(m.registers[VF := 0], m.pixels, []);
      var py := registers[d.y];
      var edited := DrawRows(d.x, py, d.n);
      out := Output(true, edited);
    }

    /**
     * The outer loop of Dxyn over sprite rows 0 .. n-1: px restarts at Vx for every row and py
     * moves on by one after every row.
     */
    method DrawRows(x: nat, py0: byte, n: nat) returns (edited: seq<nat>)
      requires Valid() && x < 16 && (n == 0 || i as int + n <= MEM_SIZE)
      modifies registers, display.mem
      ensures Valid() && Canvas(edited) == DrawSpriteRows(old(Canvas([])), mem[..], i as int, x, py0, 0, n)
    {
      ghost var memory := mem[..];
      ghost var c0 := Canvas([]);
      edited := [];
      var px := registers[x];
      var py := py0;
      for idx := 0 to n
        invariant mem[..] == memory
        invariant Canvas(edited) == RowsAfter(c0, memory, i as int, x, py0, idx)
        invariant px == registers[x] && py == RowY(py0, idx)
      {
        edited := DrawNextRow(c0, memory, x, py0, idx, px, py, edited);
        px := registers[x];
        py := py + 1;
      }
      RowsAfterThenRows(c0, memory, i as int, x, py0, n, n);
    }

    /** One pass of the row loop: row `idx` drawn from the column Vx holds now, one step of RowsAfter. */
    method DrawNextRow(ghost c0: AlterSemantics.Canvas, ghost memory: seq<byte>, x: nat, py0: byte, idx: nat, px: byte, py: byte, edited0: seq<nat>)
      returns (edited: seq<nat>)
      requires Valid() && x < 16 && i as int + idx < MEM_SIZE && mem[..] == memory && CanvasWf(c0)
      requires Canvas(edited0) == RowsAfter(c0, memory, i as int, x, py0, idx)
      requires px == registers[x] && py == RowY(py0, idx)
      modifies registers, display.mem
      ensures Valid() && mem[..] == memory
      ensures Canvas(edited) == RowsAfter(c0, memory, i as int, x, py0, idx + 1)
    {
      edited := DrawRow(idx, px, py, edited0);
    }

    /** The inner loop of Dxyn: the eight bits of sprite row `row`, px moving on by one after every bit. */
    method DrawRow(row: nat, px0: byte, py: byte, edited0: seq<nat>) returns (edited: seq<nat>)
      requires Valid() && i as int + row < MEM_SIZE
      modifies registers, display.mem
      ensures Valid() && Canvas(edited) == DrawRowBits(old(Canvas(edited0)), mem[..], i as int, row, px0, py, 0)
    {
      ghost var memory := mem[..];
      ghost var cur := Canvas(edited0);
      ghost var target := DrawRowBits(cur, memory, i as int, row, px0, py, 0);
      var b := mem[i as int + row];
      var px := px0;
      edited := edited0;
      for bit := 0 to 8
        invariant mem[..] == memory
        invariant Canvas(edited) == cur
        invariant DrawRowBits(cur, memory, i as int, row, px, py, bit) == target
      {
        RowBitsStep(cur, memory, i as int, row, px, py, bit);
        edited := DrawPixel(b, row, px, py, bit, edited);
        cur := DrawBit(cur, memory, i as int, row, px, py, bit);
        px := px + 1;
      }
    }

    /**
     * One pass of the inner loop: the value bit, the wrapped coordinates, VF set on the first
     * collision, then the cell read again, XORed with the value and written back and recorded.
     */
    method DrawPixel(b: byte, row: nat, px: byte, py: byte, bit: nat, edited0: seq<nat>) returns (edited: seq<nat>)
      requires Valid() && bit < 8 && i as int + row < MEM_SIZE && b == mem[i as int + row]
      modifies registers, display.mem
      ensures Valid() && Canvas(edited) == DrawBit(old(Canvas(edited0)), mem[..], i as int, row, px, py, bit)
    {
      ghost var c := Canvas(edited0);
      var value := PixelValue(b, bit);
      var wx := WrapColumn(px);
      var wy := WrapRow(py);
      var index := DisplayIndex(wx, wy);
      DrawBitAt(c, mem[..], i as int, row, px, py, bit, index, value);
      FlagCollision(index, value);
      TogglePixel(index, value);
      edited := edited0 + [index];
    }

    /** Horizontal wrapping: a column of 64 or more is reduced modulo BREITE, which is px % 64 in every case. */
    static method WrapColumn(px: byte) returns (wx: byte)
      ensures wx == WrapX(px) && wx < 64
    {
      wx := px;
      if px >= 64 {
        wx := px % 64;
      }
    }

    /** Vertical wrapping: a row of 32 or more is reduced modulo HOEHE, which is py % 32 in every case. */
    static method WrapRow(py: byte) returns (wy: byte)
      ensures wy == WrapY(py) && wy < 32
    {
      wy := py;
      if py >= 32 {
        wy := py % 32;
      }
    }

    /** The collision test of Dxyn: VF becomes 1 when it is still 0 and a set bit meets a lit cell. */
    method FlagCollision(index: nat, value: byte)
      requires Valid() && index < AlterDisplay.CELLS
      modifies registers
      ensures registers[..] == (if old(registers[VF]) == 0 && value == 1 && display.Cells()[index]
                                then old(registers[..])[VF := 1] else old(registers[..]))
    {
      if registers[VF] == 0 && value == 1 && display.GetPixelState(index) {
        registers[VF] := 1;
      }
    }

    /** The cell at `index` is read, XORed with the value bit and written back. */
    method TogglePixel(index: nat, value: byte)
      requires Valid() && index < AlterDisplay.CELLS && (value == 0 || value == 1)
      modifies display.mem
      ensures display.Cells() == old(display.Cells())[index := old(display.Cells())[index] != (value == 1)]
    {
      var oldStatus := FlagByte(display.GetPixelState(index));
      ghost var lit := display.Cells()[index];
      oldStatus := oldStatus ^ value;
      XorFlags(lit, value == 1);
      display.SetPixelState(index, oldStatus == 1);
    }

    /** Ex9E and ExA1: pc moves past the next instruction when the key numbered Vx is down (up). */
    method ExecuteKeys(d: Chip8Semantics.Decoded) returns (out: Output)
      requires Valid() && d.x < 16 && KeysDefined(State(), d)
      modifies this
      ensures Valid() && Step(State(), out) == ExecKeys(old(State()), d)
    {
      out := Output(true, []);
      if d.kk == 0x9E {
        var key := registers[d.x];
        if keys[key] { pc := pc + 2; }
      } else if d.kk == 0xA1 {
        var key := registers[d.x];
        if !keys[key] { pc := pc + 2; }
      } else {
        out := Output(false, []);
      }
    }

    /** The Fx__ arms, told apart by the low byte. */
    method ExecuteMisc(d: Chip8Semantics.Decoded) returns (out: Output)
      requires Valid() && d.x < 16 && MiscDefined(State(), d)
      modifies this, mem, registers
      ensures Valid() && Step(State(), out) == ExecMisc(old(State()), d)
    {
      var x := d.x;
      out := Output(true, []);
      if d.kk == 0x07 {
        registers[x] := dt;
      } else if d.kk == 0x0A {
        match currentKey {
          case Some(key) => registers[x] := key;
          case None => pc := pc - 2;
        }
      } else if d.kk == 0x15 {
        dt := registers[x];
      } else if d.kk == 0x18 {
        st := registers[x];
      } else if d.kk == 0x1E {
        i := i + registers[x] as int;
      } else if d.kk == 0x29 {
        i := x * 5;
      } else if d.kk == 0x33 {
        StoreBcd(x);
      } else if d.kk == 0x55 {
        StoreRegisters(x);
      } else if d.kk == 0x65 {
        LoadRegisters(x);
      } else {
        out := Output(false, []);
      }
    }

    /** Fx33: for idx = 2, 1, 0 the last decimal digit of num goes to I + idx and num is divided by ten. */
    method StoreBcd(x: nat)
      requires Valid() && x < 16 && i as int + 2 < MEM_SIZE
      modifies mem
      ensures mem[..] == WriteBlock(old(mem[..]), i as int, DigitsFrom(old(registers[x]), 3, []))
    {
      ghost var start := mem[..];
      ghost var digits: seq<byte> := [];
      var num := registers[x];
      assert WriteBlock(start, i as int + 3, []) == start;
      for idx := 3 downto 0
        invariant |digits| == 3 - idx
        invariant DigitsFrom(num, idx, digits) == DigitsFrom(registers[x], 3, [])
        invariant mem[..] == WriteBlock(start, i as int + idx, digits)
      {
        WriteBlockPrepend(start, i as int + idx + 1, num % 10, digits);
        mem[i as int + idx] := num % 10;
        digits := [num % 10] + digits;
        num := num / 10;
      }
    }

    /** Fx55: V0 .. V(x-1) are copied to memory from I on. */
    method StoreRegisters(x: nat)
      requires Valid() && x < 16 && (x == 0 || i as int + x <= MEM_SIZE)
      modifies mem
      ensures mem[..] == if x == 0 then old(mem[..]) else WriteBlock(old(mem[..]), i as int, registers[..x])
    {
      ghost var start := mem[..];
      for idx := 0 to x
        invariant x > 0 ==> mem[..] == WriteBlock(start, i as int, registers[..x][..idx])
        invariant x == 0 ==> mem[..] == start
      {
        Chip8Semantics.WriteBlockGrows(start, i as int, registers[..x], idx);
        mem[i as int + idx] := registers[idx];
      }
      assert registers[..x][..x] == registers[..x];
    }

    /** Fx65: V0 .. V(x-1) are read back from memory at I. */
    method LoadRegisters(x: nat)
      requires Valid() && x < 16 && (x == 0 || i as int + x <= MEM_SIZE)
      modifies registers
      ensures registers[..] == if x == 0 then old(registers[..]) else mem[i..i as int + x] + old(registers[..])[x..]
    {
      for idx := 0 to x
        invariant forall k :: 0 <= k < idx ==> registers[k] == mem[i as int + k]
        invariant forall k :: idx <= k < REGISTER_COUNT ==> registers[k] == old(registers[k])
      {
        registers[idx] := mem[i as int + idx];
      }
      if x > 0 {
        assert forall k :: 0 <= k < REGISTER_COUNT ==> registers[..][k] == (mem[i..i as int + x] + old(registers[..])[x..])[k];
      }
    }

    /** `tick`: DT and ST count down unless zero, then the word at pc is fetched and executed. */
    method Tick(rnd: byte) returns (out: Output)
      requires Valid() && CanTick(State())
      modifies this, mem, stack, registers, display.mem
      ensures Valid() && Step(State(), out) == AlterSemantics.Tick(old(State()), rnd)
    {
      CountDownTimers();
      var op := Fetch();
      out := Execute(op, rnd);
    }

    /** The timer part of `tick`: DT and ST each go down by one unless already zero. */
    method CountDownTimers()
      requires Valid()
      modifies this
      ensures Valid() && State() == DecrementTimers(old(State()))
    {
      CountDownDelay();
      CountDownSound();
    }

    /** DT goes down by one unless already zero. */
    method CountDownDelay()
      requires Valid()
      modifies this
      ensures Valid() && State() == old(State()).(dt := if old(dt) > 0 then old(dt) - 1 else old(dt))
    {
      ghost var m := State();
      if dt > 0 {
        dt := dt - 1;
      }
      assert State() == m.(dt := dt);
    }

    /** ST goes down by one unless already zero. */
    method CountDownSound()
      requires Valid()
      modifies this
      ensures Valid() && State() == old(State()).(st := if old(st) > 0 then old(st) - 1 else old(st))
    {
      ghost var m := State();
      if st > 0 {
        st := st - 1;
      }
      assert State() == m.(st := st);
    }

    /** `key_press`. */
    method KeyPress(key: byte)
      requires Valid() && key as int < KEY_COUNT
      modifies this, keys
      ensures Valid() && State() == AlterSemantics.KeyPress(old(State()), key)
    {
      currentKey := Some(key);
      keys[key] := true;
    }

    /** `key_up`. */
    method KeyUp(key: byte)
      requires Valid() && key as int < KEY_COUNT
      modifies this, keys
      ensures Valid() && State() == AlterSemantics.KeyUp(old(State()), key)
    {
      match currentKey {
        case Some(current) =>
          if key == current {
            currentKey := None;
          }
        case None =>
      }
      keys[key] := false;
    }

    /** `reset`: memory, stack and registers are zeroed one cell at a time, the display cleared, the font reloaded. */
    method Reset()
      requires Valid()
      modifies this, mem, stack, registers, display.mem
      ensures Valid() && State() == AlterSemantics.Reset(old(State()))
    {
      for k := 0 to MEM_SIZE
        modifies mem
        invariant forall j :: 0 <= j < k ==> mem[j] == 0
      {
        mem[k] := 0;
      }
      assert mem[..] == Zeros(MEM_SIZE);
      for k := 0 to STACK_SIZE
        modifies stack
        invariant mem[..] == Zeros(MEM_SIZE)
        invariant forall j :: 0 <= j < k ==> stack[j] == 0
      {
        stack[k] := 0;
      }
      assert stack[..] == ZeroWords(STACK_SIZE);
      for k := 0 to REGISTER_COUNT
        modifies registers
        invariant mem[..] == Zeros(MEM_SIZE) && stack[..] == ZeroWords(STACK_SIZE)
        invariant forall j :: 0 <= j < k ==> registers[j] == 0
      {
        registers[k] := 0;
      }
      assert registers[..] == Zeros(REGISTER_COUNT);
      sp := 0;
      pc := 0;
      display.ClearDisplay();
      SetFont();
    }

    /** `load_rom`: a reset, pc at 0x200, then the ROM bytes in order from 0x200 on; the count is returned. */
    method LoadRom(rom: Option<seq<byte>>) returns (count: nat)
      requires Valid() && PROGRAM_START as int + |RomBytes(rom)| <= MEM_SIZE
      modifies this, mem, stack, registers, display.mem
      ensures Valid() && State() == AlterSemantics.LoadRom(old(State()), rom) && count == |RomBytes(rom)|
    {
      Reset();
      ghost var z := State();
      pc := PROGRAM_START;
      count := CopyRom(RomBytes(rom));
      assert State() == z.(pc := PROGRAM_START, mem := mem[..]);
    }

    /** The copy loop of `load_rom`: byte k of the ROM goes to mem[pc + k]. */
    method CopyRom(data: seq<byte>) returns (count: nat)
      requires Valid() && pc as int + |data| <= MEM_SIZE
      modifies mem
      ensures mem[..] == WriteBlock(old(mem[..]), pc as int, data) && count == |data|
    {
      ghost var start := mem[..];
      count := 0;
      assert WriteBlock(start, pc as int, data[..0]) == start;
      while count < |data|
        invariant count <= |data|
        invariant mem[..] == WriteBlock(start, pc as int, data[..count])
      {
        Chip8Semantics.WriteBlockGrows(start, pc as int, data, count);
        mem[pc as int + count] := data[count];
        count := count + 1;
      }
      assert data[..count] == data;
    }
  }
}
