/**
 * The instruction semantics of the older CPU (tomo/alter_chip/cpu.rs), stated on a value
 * snapshot of the machine. The class in alter_cpu.dfy updates its arrays in place and is
 * proved to follow these functions; alter_properties.dfy states what each instruction does.
 *
 * Unlike the current processor, this CPU keeps DT and ST as fields of their own, its `fetch`
 * advances pc, and `execute` writes pc directly; it reports the display cells it wrote.
 * The display is the one of tomo/alter_chip/display.rs: 64 cells wide, 32 tall, row by row.
 */
module AlterSemantics {
  import opened Bits
  import SpriteBlit
  import AlterDisplay
  import Chip8Semantics

  const MEM_SIZE: nat := 4096
  const STACK_SIZE: nat := 16
  const REGISTER_COUNT: nat := 16
  const KEY_COUNT: nat := 16
  const FONT_SIZE: nat := 80
  const VF: nat := 15
  const PROGRAM_START: u16 := 0x200

  /** A snapshot of a `Cpu`: the display buffer appears as its cells. */
  datatype Machine = Machine(
    mem: seq<byte>,
    pc: u16,
    i: u16,
    stack: seq<u16>,
    sp: u16,
    dt: byte,
    st: byte,
    registers: seq<byte>,
    pixels: seq<bool>,
    keys: seq<bool>,
    currentKey: Option<byte>)

  predicate Wf(m: Machine)
  {
    && |m.mem| == MEM_SIZE
    && |m.stack| == STACK_SIZE
    && |m.registers| == REGISTER_COUNT
    && |m.pixels| == AlterDisplay.CELLS
    && |m.keys| == KEY_COUNT
  }

  /** The `Output` of `execute`: whether the opcode was supported, and the display cells it wrote, in order. */
  datatype Output = Output(success: bool, editedPixels: seq<nat>)

  /** A machine after `execute` together with its `Output`. */
  datatype Step = Step(m: Machine, out: Output)

  /** An unsupported opcode: `execute` returns early, nothing has changed and no cell is reported. */
  function Fail(m: Machine): Step
  {
    Step(m, Output(false, []))
  }

  /** A supported opcode that writes no display cell. */
  function Done(m: Machine): Step
  {
    Step(m, Output(true, []))
  }

  // ---------------------------------------------------------------------------------------
  // Fetch

  /** The word `fetch` returns and the machine it leaves. */
  datatype Fetched = Fetched(op: bv16, m: Machine)

  /** `fetch`: the big-endian word at pc, and pc advanced past it. */
  function Fetch(m: Machine): (f: Fetched)
    requires Wf(m) && m.pc as int + 1 < MEM_SIZE
    ensures Wf(f.m)
  {
    Fetched(((m.mem[m.pc] as bv16) << 8) | (m.mem[m.pc + 1] as bv16), m.(pc := m.pc + 2))
  }

  // ---------------------------------------------------------------------------------------
  // When `execute` would panic. The opcode is cut up as in the current processor:
  // instr = op & 0xF000 is the first nibble, vx and vy the middle ones, lower = op & 0xFF,
  // subinstr = op & 0xF and addr = op & 0xFFF.

  /** The skips add 2 to a u16 pc. */
  predicate SkipDefined(m: Machine, condition: bool)
  {
    condition ==> m.pc as int + 2 < 0x1_0000
  }

  /** 00EE reads `stack[sp]`, then decrements sp; 2nnn increments sp, then writes `stack[sp]`. */
  predicate FlowDefined(m: Machine, d: Chip8Semantics.Decoded)
  {
    && (d.n0 == 0x0 && d.kk == 0xEE ==> 1 <= m.sp as int < STACK_SIZE)
    && (d.n0 == 0x2 ==> m.sp as int + 1 < STACK_SIZE)
  }

  /** 3xkk .. 9xy0, 6xkk and 7xkk: the skips stay in u16 and the u8 additions do not overflow. */
  predicate BasicDefined(m: Machine, d: Chip8Semantics.Decoded)
    requires Wf(m) && d.x < 16 && d.y < 16
  {
    var vx, vy := m.registers[d.x], m.registers[d.y];
    && FlowDefined(m, d)
    && (d.n0 == 0x3 ==> SkipDefined(m, vx == d.kk))
    && (d.n0 == 0x4 ==> SkipDefined(m, vx != d.kk))
    && (d.n0 == 0x5 ==> SkipDefined(m, vx == vy))
    && (d.n0 == 0x9 ==> SkipDefined(m, vx != vy))
    && (d.n0 == 0x6 || d.n0 == 0x7 ==> vx as int + d.kk as int <= 0xFF)
  }

  /** The register written first by 8xy6, 8xy7 and 8xyE: VF, before Vx is computed. */
  function FlagFirst(r: seq<byte>, x: nat, y: nat, n: nat): (r': seq<byte>)
    requires |r| == REGISTER_COUNT && x < 16 && y < 16
    ensures |r'| == REGISTER_COUNT
  {
    match n
    case 0x6 => r[VF := r[x] & 1]
    case 0x7 => r[VF := FlagByte(r[y] > r[x])]
    case 0xE => r[VF := (r[x] & 0x80) >> 7]
    case _ => r
  }

  /** 8xy4, 8xy5 and 8xy7 compute in u8 without wrapping: their sums and differences must fit. */
  predicate AluDefined(r: seq<byte>, d: Chip8Semantics.Decoded)
    requires |r| == REGISTER_COUNT && d.x < 16 && d.y < 16
  {
    var f := FlagFirst(r, d.x, d.y, d.n);
    && (d.n == 0x4 ==> r[d.x] as int + r[d.y] as int <= 0xFF)
    && (d.n == 0x5 ==> r[d.x] as int >= r[d.y] as int)
    && (d.n == 0x7 ==> f[d.y] as int >= f[d.x] as int)
  }

  /**
   * Dxyn reads mem[i + row] for each row; px counts up past each of the eight bits of a row
   * and py past each row, both in u8. When x or y is 15 the starting coordinate is VF, which
   * Dxyn keeps at 0 or 1.
   */
  predicate DrawDefined(m: Machine, d: Chip8Semantics.Decoded)
    requires Wf(m) && d.x < 16 && d.y < 16
  {
    d.n == 0 ||
      (&& m.i as int + d.n <= MEM_SIZE
       && (d.x == VF || m.registers[d.x] as int + 8 <= 0xFF)
       && (d.y == VF || m.registers[d.y] as int + d.n <= 0xFF))
  }

  /** Ex9E and ExA1 index the keys with Vx and may skip. */
  predicate KeysDefined(m: Machine, d: Chip8Semantics.Decoded)
    requires Wf(m) && d.x < 16
  {
    var vx := m.registers[d.x];
    && (d.kk == 0x9E || d.kk == 0xA1 ==> vx as int < KEY_COUNT)
    && (d.kk == 0x9E && vx as int < KEY_COUNT ==> SkipDefined(m, m.keys[vx]))
    && (d.kk == 0xA1 && vx as int < KEY_COUNT ==> SkipDefined(m, !m.keys[vx]))
  }

  /** Fx0A may step pc back, Fx1E adds in u16, Fx33, Fx55 and Fx65 index memory from i. */
  predicate MiscDefined(m: Machine, d: Chip8Semantics.Decoded)
    requires Wf(m) && d.x < 16
  {
    && (d.kk == 0x0A && m.currentKey.None? ==> m.pc as int >= 2)
    && (d.kk == 0x1E ==> m.i as int + m.registers[d.x] as int < 0x1_0000)
    && (d.kk == 0x33 ==> m.i as int + 2 < MEM_SIZE)
    && (d.kk == 0x55 || d.kk == 0x65 ==> d.x == 0 || m.i as int + d.x <= MEM_SIZE)
  }

  /** `execute(op)` would run to its end without a panic. */
  predicate CanExecute(m: Machine, op: bv16)
  {
    Wf(m) &&
      var d := Chip8Semantics.Decode(op);
      match d.n0
      case 0x0 => FlowDefined(m, d)
      case 0x8 => AluDefined(m.registers, d)
      case 0xD => DrawDefined(m, d)
      case 0xE => KeysDefined(m, d)
      case 0xF => MiscDefined(m, d)
      case _ => BasicDefined(m, d)
  }

  // ---------------------------------------------------------------------------------------
  // The arms of `execute`

  /** Every cell index of the display in order: what 00E0 reports. */
  function AllCells(): (cells: seq<nat>)
    ensures |cells| == AlterDisplay.CELLS
    ensures forall k :: 0 <= k < AlterDisplay.CELLS ==> cells[k] == k
  {
    seq(AlterDisplay.CELLS, k => k)
  }

  /** 00E0 and 00EE; the 0x0 arm looks at the low byte only. */
  function ExecSystem(m: Machine, d: Chip8Semantics.Decoded): (s: Step)
    requires Wf(m) && d.n0 == 0 && FlowDefined(m, d)
    ensures Wf(s.m) && s.m.keys == m.keys && s.m.currentKey == m.currentKey
    ensures !s.out.success ==> s == Fail(m)
  {
    match d.kk
    case 0xE0 => Step(m.(pixels := AllOff(AlterDisplay.CELLS)), Output(true, AllCells()))
    case 0xEE => Done(m.(pc := m.stack[m.sp], sp := m.sp - 1))
    case _ => Fail(m)
  }

  /** pc moved past the next instruction when the condition holds. */
  function SkipIf(m: Machine, condition: bool): (s: Step)
    requires Wf(m) && SkipDefined(m, condition)
    ensures Wf(s.m)
  {
    if condition then Done(m.(pc := m.pc + 2)) else Done(m)
  }

  /** 1nnn .. Cxkk except 8xy_; `rnd` stands for the random byte of Cxkk. */
  function ExecBasic(m: Machine, d: Chip8Semantics.Decoded, rnd: byte): (s: Step)
    requires Wf(m) && d.x < 16 && d.y < 16 && d.nnn < 0x1000 && BasicDefined(m, d)
    requires d.n0 == 0x1 || d.n0 == 0x2 || d.n0 == 0x3 || d.n0 == 0x4 || d.n0 == 0x5 || d.n0 == 0x6
          || d.n0 == 0x7 || d.n0 == 0x9 || d.n0 == 0xA || d.n0 == 0xB || d.n0 == 0xC
    ensures Wf(s.m) && s.m.keys == m.keys && s.m.currentKey == m.currentKey && s.out.success
  {
    var vx, vy := m.registers[d.x], m.registers[d.y];
    match d.n0
    case 0x1 => Done(m.(pc := d.nnn))
    case 0x2 =>
      var sp := m.sp + 1;
      Done(m.(sp := sp, stack := m.stack[sp := m.pc], pc := d.nnn))
    case 0x3 => SkipIf(m, vx == d.kk)
    case 0x4 => SkipIf(m, vx != d.kk)
    case 0x5 => SkipIf(m, vx == vy)
    case 0x6 => Done(m.(registers := m.registers[d.x := vx + d.kk]))
    case 0x7 => Done(m.(registers := m.registers[d.x := vx + d.kk]))
    case 0x9 => SkipIf(m, vx != vy)
    case 0xA => Done(m.(i := d.nnn))
    case 0xB => Done(m.(pc := m.registers[0] as int + d.nnn))
    case 0xC => Done(m.(registers := m.registers[d.x := rnd & d.kk]))
  }

  /** 8xy0 .. 8xy3: Vx becomes Vy, or Vx OR, AND or XOR Vy. */
  function LogicOp(r: seq<byte>, x: nat, y: nat, n: nat): (r': seq<byte>)
    requires |r| == REGISTER_COUNT && x < 16 && y < 16 && n < 4
    ensures |r'| == REGISTER_COUNT
  {
    match n
    case 0x0 => r[x := r[y]]
    case 0x1 => r[x := r[x] | r[y]]
    case 0x2 => r[x := r[x] & r[y]]
    case 0x3 => r[x := r[x] ^ r[y]]
  }

  /** 8xy4 and 8xy5: the u8 sum and difference, which must not wrap; no flag is set. */
  function SumOp(r: seq<byte>, x: nat, y: nat, n: nat): (r': seq<byte>)
    requires |r| == REGISTER_COUNT && x < 16 && y < 16 && (n == 0x4 || n == 0x5)
    requires n == 0x4 ==> r[x] as int + r[y] as int <= 0xFF
    requires n == 0x5 ==> r[x] as int >= r[y] as int
    ensures |r'| == REGISTER_COUNT
  {
    if n == 0x4 then r[x := r[x] + r[y]] else r[x := r[x] - r[y]]
  }

  /** 8xy6, 8xy7 and 8xyE: VF is written first, then Vx is computed from the updated registers. */
  function FlagOp(r: seq<byte>, x: nat, y: nat, n: nat): (r': seq<byte>)
    requires |r| == REGISTER_COUNT && x < 16 && y < 16 && (n == 0x6 || n == 0x7 || n == 0xE)
    requires n == 0x7 ==> FlagFirst(r, x, y, n)[y] as int >= FlagFirst(r, x, y, n)[x] as int
    ensures |r'| == REGISTER_COUNT
  {
    var f := FlagFirst(r, x, y, n);
    if n == 0x6 then f[x := f[x] >> 1]
    else if n == 0x7 then f[x := f[y] - f[x]]
    else f[x := f[x] << 1]
  }

  /** The registers after 8xy0 .. 8xy7 and 8xyE. */
  function AluOp(r: seq<byte>, d: Chip8Semantics.Decoded): (r': seq<byte>)
    requires |r| == REGISTER_COUNT && d.x < 16 && d.y < 16 && AluDefined(r, d)
    requires d.n < 0x8 || d.n == 0xE
    ensures |r'| == REGISTER_COUNT
  {
    if d.n < 0x4 then LogicOp(r, d.x, d.y, d.n)
    else if d.n < 0x6 then SumOp(r, d.x, d.y, d.n)
    else FlagOp(r, d.x, d.y, d.n)
  }

  /** 8xy_; an unlisted last nibble is unsupported. */
  function ExecAlu(m: Machine, d: Chip8Semantics.Decoded): (s: Step)
    requires Wf(m) && d.x < 16 && d.y < 16 && AluDefined(m.registers, d)
    ensures Wf(s.m) && s.m.keys == m.keys && s.m.currentKey == m.currentKey
    ensures !s.out.success ==> s == Fail(m)
  {
    if d.n < 0x8 || d.n == 0xE then Done(m.(registers := AluOp(m.registers, d)))
    else Fail(m)
  }

  // ---------------------------------------------------------------------------------------
  // Dxyn

  /** The registers, the display cells and the list of written cell indices while Dxyn runs. */
  datatype Canvas = Canvas(registers: seq<byte>, pixels: seq<bool>, edited: seq<nat>)

  predicate CanvasWf(c: Canvas)
  {
    |c.registers| == REGISTER_COUNT && |c.pixels| == AlterDisplay.CELLS
  }

  /** VF holds a flag byte and every reported index is a display cell. */
  predicate Settled(c: Canvas)
    requires CanvasWf(c)
  {
    (c.registers[VF] == 0 || c.registers[VF] == 1) && forall k :: 0 <= k < |c.edited| ==> c.edited[k] < AlterDisplay.CELLS
  }

  /** c' has the registers of c except VF, and is settled. */
  predicate Kept(c: Canvas, c': Canvas)
    requires CanvasWf(c) && CanvasWf(c')
  {
    (forall k :: 0 <= k < REGISTER_COUNT && k != VF ==> c'.registers[k] == c.registers[k]) && Settled(c')
  }

  /** The horizontal wrap of Dxyn: px modulo BREITE (64); the source reduces only px >= 64, which is the same. */
  function WrapX(px: byte): (wx: byte)
    ensures wx < 64
  {
    px % 64
  }

  /** The vertical wrap of Dxyn: py modulo HOEHE (32); the source reduces only py >= 32, which is the same. */
  function WrapY(py: byte): (wy: byte)
    ensures wy < 32
  {
    py % 32
  }

  /** The display index the source computes, wy * BREITE + wx. */
  function DisplayIndex(wx: byte, wy: byte): (p: nat)
    requires wx < 64 && wy < 32
    ensures p < AlterDisplay.CELLS
  {
    Compare(64, wx);
    Compare(32, wy);
    wy as int * AlterDisplay.BREITE + wx as int
  }

  /**
   * One pass of the inner Dxyn loop at coordinates (px, py): the cell wy * BREITE + wx is
   * rewritten as its old value XOR bit `bit` of the sprite row, VF becomes 1 if it was 0 and
   * a set bit met a lit cell, and the cell index is recorded. A zero bit rewrites its cell
   * unchanged but is recorded too.
   */
  function DrawBit(c: Canvas, mem: seq<byte>, i: nat, row: nat, px: byte, py: byte, bit: nat): (r: Canvas)
    requires CanvasWf(c) && |mem| == MEM_SIZE && i + row < MEM_SIZE && bit < 8
    ensures CanvasWf(r) && |r.edited| == |c.edited| + 1
  {
    var value := BitAt(mem[i + row], bit);
    var p := DisplayIndex(WrapX(px), WrapY(py));
    var lit := c.pixels[p];
    var flagged := if c.registers[VF] == 0 && value && lit then c.registers[VF := 1] else c.registers;
    Canvas(flagged, c.pixels[p := lit != value], c.edited + [p])
  }

  /**
   * Bits `bit` .. 7 of sprite row `row`, the first of them at column px; px moves on by one
   * after every bit. The ensures gives only how the edited list grows; the cells and the flag
   * are stated against the reference blit in AlterDraw.RowBitsIsDrawBits.
   */
  function DrawRowBits(c: Canvas, mem: seq<byte>, i: nat, row: nat, px: byte, py: byte, bit: nat): (r: Canvas)
    requires CanvasWf(c) && |mem| == MEM_SIZE && i + row < MEM_SIZE && bit <= 8
    ensures CanvasWf(r) && |r.edited| == |c.edited| + (8 - bit)
    decreases 8 - bit, row
  {
    if bit == 8 then c
    else DrawRowBits(DrawBit(c, mem, i, row, px, py, bit), mem, i, row, px + 1, py, bit + 1)
  }

  /** Drawing bits of a row writes no register but VF, leaves VF at 0 or 1 and reports display cells only. */
  lemma {:induction false} RowBitsKeep(c: Canvas, mem: seq<byte>, i: nat, row: nat, px: byte, py: byte, bit: nat)
    requires CanvasWf(c) && |mem| == MEM_SIZE && i + row < MEM_SIZE && bit <= 8
    ensures Settled(c) ==> Kept(c, DrawRowBits(c, mem, i, row, px, py, bit))
    decreases 8 - bit
  {
    if bit < 8 {
      RowBitsKeep(DrawBit(c, mem, i, row, px, py, bit), mem, i, row, px + 1, py, bit + 1);
    }
  }

  /**
   * Sprite rows `row` .. n-1, the first of them at screen row py: every row starts at the
   * column Vx holds when the row starts, and py moves on by one after every row. The ensures
   * gives the growth of the edited list and the frame; what is drawn is stated against the
   * reference blit in AlterDraw.DrawIsBlit.
   */
  function DrawSpriteRows(c: Canvas, mem: seq<byte>, i: nat, x: nat, py: byte, row: nat, n: nat): (d: Canvas)
    requires CanvasWf(c) && |mem| == MEM_SIZE && (n == 0 || i + n <= MEM_SIZE) && x < 16 && row <= n
    ensures CanvasWf(d) && |d.edited| == |c.edited| + 8 * (n - row)
    ensures Settled(c) ==> Kept(c, d)
    decreases n - row
  {
    if row == n then c
    else
      RowBitsKeep(c, mem, i, row, c.registers[x], py, 0);
      DrawSpriteRows(DrawRowBits(c, mem, i, row, c.registers[x], py, 0), mem, i, x, py + 1, row + 1, n)
  }

  /** Dxyn: VF is cleared, the start row is read, then the n rows at mem[i..] are drawn. */
  function ExecDraw(m: Machine, d: Chip8Semantics.Decoded): (s: Step)
    requires Wf(m) && d.x < 16 && d.y < 16 && d.n < 16 && DrawDefined(m, d)
    ensures Wf(s.m) && s.out.success && s.m == m.(registers := s.m.registers, pixels := s.m.pixels)
    ensures forall k :: 0 <= k < REGISTER_COUNT && k != VF ==> s.m.registers[k] == m.registers[k]
    ensures s.m.registers[VF] == 0 || s.m.registers[VF] == 1
    ensures |s.out.editedPixels| == 8 * d.n
    ensures forall k :: 0 <= k < |s.out.editedPixels| ==> s.out.editedPixels[k] < AlterDisplay.CELLS
  {
    var start := m.registers[VF := 0];
    var c := DrawSpriteRows(Canvas(start, m.pixels, []), m.mem, m.i as int, d.x, start[d.y], 0, d.n);
    Step(m.(registers := c.registers, pixels := c.pixels), Output(true, c.edited))
  }

  /** Ex9E and ExA1: skip on the key numbered Vx. */
  function ExecKeys(m: Machine, d: Chip8Semantics.Decoded): (s: Step)
    requires Wf(m) && d.x < 16 && KeysDefined(m, d)
    ensures Wf(s.m) && s.m.keys == m.keys && s.m.currentKey == m.currentKey
    ensures !s.out.success ==> s == Fail(m)
  {
    var vx := m.registers[d.x];
    match d.kk
    case 0x9E => SkipIf(m, m.keys[vx])
    case 0xA1 => SkipIf(m, !m.keys[vx])
    case _ => Fail(m)
  }

  /**
   * The digits Fx33 writes: the loop over idx = 2, 1, 0 stores num % 10 at i + idx and
   * divides num by ten; `digits` holds the cells written so far, the lowest address first.
   * The ensures gives only the count; AlterProperties.DigitsAreBcd states the digits.
   */
  function DigitsFrom(num: byte, idx: nat, digits: seq<byte>): (r: seq<byte>)
    requires idx + |digits| == 3
    ensures |r| == 3
    decreases idx
  {
    if idx == 0 then digits
    else DigitsFrom(num / 10, idx - 1, [num % 10] + digits)
  }

  /** `mem` with `block` written from `at` on, as the copy loops write it. */
  function WriteBlock(mem: seq<byte>, at: nat, block: seq<byte>): (r: seq<byte>)
    requires at + |block| <= |mem|
    ensures |r| == |mem|
  {
    Chip8Semantics.WriteBlock(mem, at, block)
  }

  /** The Fx__ arms. Fx29 uses the register number x, not Vx; Fx55 and Fx65 stop before Vx. */
  function ExecMisc(m: Machine, d: Chip8Semantics.Decoded): (s: Step)
    requires Wf(m) && d.x < 16 && MiscDefined(m, d)
    ensures Wf(s.m) && s.m.keys == m.keys && s.m.currentKey == m.currentKey
    ensures !s.out.success ==> s == Fail(m)
  {
    var r := m.registers;
    var vx := r[d.x];
    var x := d.x;
    match d.kk
    case 0x07 => Done(m.(registers := r[x := m.dt]))
    case 0x0A =>
      (match m.currentKey
       case Some(key) => Done(m.(registers := r[x := key]))
       case None => Done(m.(pc := m.pc - 2)))
    case 0x15 => Done(m.(dt := vx))
    case 0x18 => Done(m.(st := vx))
    case 0x1E => Done(m.(i := m.i + vx as int))
    case 0x29 => Done(m.(i := x * 5))
    case 0x33 => Done(m.(mem := WriteBlock(m.mem, m.i as int, DigitsFrom(vx, 3, []))))
    case 0x55 => Done(m.(mem := if x == 0 then m.mem else WriteBlock(m.mem, m.i as int, r[..x])))
    case 0x65 => Done(m.(registers := if x == 0 then r else m.mem[m.i..m.i as int + x] + r[x..]))
    case _ => Fail(m)
  }

  /** `execute(op)`, with `rnd` for the random byte of Cxkk. */
  function Execute(m: Machine, op: bv16, rnd: byte): (s: Step)
    requires CanExecute(m, op)
    ensures Wf(s.m) && s.m.keys == m.keys && s.m.currentKey == m.currentKey
    ensures !s.out.success ==> s == Fail(m)
  {
    var d := Chip8Semantics.Decode(op);
    match d.n0
    case 0x0 => ExecSystem(m, d)
    case 0x8 => ExecAlu(m, d)
    case 0xD => ExecDraw(m, d)
    case 0xE => ExecKeys(m, d)
    case 0xF => ExecMisc(m, d)
    case _ => ExecBasic(m, d, rnd)
  }

  // ---------------------------------------------------------------------------------------
  // Which opcodes `execute` recognises, as a flat table

  /** What an arm looks at besides the first nibble: nothing, the last nibble, or the low byte. */
  datatype Low = AnyLow | Sub(n: nat) | Lower(kk: byte)

  datatype Arm = Arm(n0: nat, low: Low)

  /** The 34 arms of `execute`, in the order of the source. */
  const ARMS: seq<Arm> := [
    Arm(0x0, Lower(0xE0)), Arm(0x0, Lower(0xEE)),
    Arm(0x1, AnyLow), Arm(0x2, AnyLow), Arm(0x3, AnyLow), Arm(0x4, AnyLow),
    Arm(0x5, AnyLow), Arm(0x6, AnyLow), Arm(0x7, AnyLow),
    Arm(0x8, Sub(0x0)), Arm(0x8, Sub(0x1)), Arm(0x8, Sub(0x2)), Arm(0x8, Sub(0x3)),
    Arm(0x8, Sub(0x4)), Arm(0x8, Sub(0x5)), Arm(0x8, Sub(0x6)), Arm(0x8, Sub(0x7)),
    Arm(0x8, Sub(0xE)),
    Arm(0x9, AnyLow), Arm(0xA, AnyLow), Arm(0xB, AnyLow), Arm(0xC, AnyLow), Arm(0xD, AnyLow),
    Arm(0xE, Lower(0x9E)), Arm(0xE, Lower(0xA1)),
    Arm(0xF, Lower(0x07)), Arm(0xF, Lower(0x0A)), Arm(0xF, Lower(0x15)), Arm(0xF, Lower(0x18)),
    Arm(0xF, Lower(0x1E)), Arm(0xF, Lower(0x29)), Arm(0xF, Lower(0x33)), Arm(0xF, Lower(0x55)),
    Arm(0xF, Lower(0x65))
  ]

  predicate Fits(d: Chip8Semantics.Decoded, a: Arm)
  {
    && d.n0 == a.n0
    && match a.low
       case AnyLow => true
       case Sub(n) => d.n == n
       case Lower(kk) => d.kk == kk
  }

  /** The opcode falls under one of the arms of `execute`. */
  predicate Recognized(op: bv16)
  {
    exists k :: 0 <= k < |ARMS| && Fits(Chip8Semantics.Decode(op), ARMS[k])
  }

  // ---------------------------------------------------------------------------------------
  // Timers, keys, reset and loading

  /** The timer part of `tick`: DT and ST each count down by one unless they are zero. */
  function DecrementTimers(m: Machine): (r: Machine)
    requires Wf(m)
    ensures Wf(r)
  {
    m.(dt := if m.dt > 0 then m.dt - 1 else m.dt, st := if m.st > 0 then m.st - 1 else m.st)
  }

  /** `tick` would not panic: the timers count down, then the word at pc is fetched and executed. */
  predicate CanTick(m: Machine)
  {
    Wf(m) && m.pc as int + 1 < MEM_SIZE && var f := Fetch(DecrementTimers(m)); CanExecute(f.m, f.op)
  }

  /** `tick`. */
  function Tick(m: Machine, rnd: byte): (s: Step)
    requires CanTick(m)
    ensures Wf(s.m)
  {
    var f := Fetch(DecrementTimers(m));
    Execute(f.m, f.op, rnd)
  }

  /** `should_beep`: the sound timer is running. */
  predicate ShouldBeep(m: Machine)
  {
    m.st > 0
  }

  /** `key_press`: the key becomes the current key and is marked down. */
  function KeyPress(m: Machine, key: byte): (r: Machine)
    requires Wf(m) && key as int < KEY_COUNT
    ensures Wf(r)
  {
    m.(currentKey := Some(key), keys := m.keys[key := true])
  }

  /** `key_up`: the key is marked up; it stops being the current key only if it was it. */
  function KeyUp(m: Machine, key: byte): (r: Machine)
    requires Wf(m) && key as int < KEY_COUNT
    ensures Wf(r)
  {
    m.(currentKey := if m.currentKey == Some(key) then None else m.currentKey, keys := m.keys[key := false])
  }

  /** What `set_font` leaves in memory: the font at 0 .. 79, the rest as it was. */
  function WithFont(mem: seq<byte>): (r: seq<byte>)
    requires |mem| == MEM_SIZE
    ensures |r| == MEM_SIZE
  {
    WriteBlock(mem, 0, AlterDisplay.FONT)
  }

  /** `reset`: memory, stack and registers zeroed, sp and pc at 0, display cleared, font reloaded. */
  function Reset(m: Machine): (r: Machine)
    requires Wf(m)
    ensures Wf(r)
  {
    m.(mem := WithFont(Zeros(MEM_SIZE)), stack := ZeroWords(STACK_SIZE), registers := Zeros(REGISTER_COUNT),
       sp := 0, pc := 0, pixels := AllOff(AlterDisplay.CELLS))
  }

  /** The bytes `load_rom` copies: none for `None`. */
  function RomBytes(rom: Option<seq<byte>>): seq<byte>
  {
    match rom
    case Some(data) => data
    case None => []
  }

  /** `load_rom`: a reset, pc at 0x200, then the bytes copied to memory from 0x200. */
  function LoadRom(m: Machine, rom: Option<seq<byte>>): (r: Machine)
    requires Wf(m) && PROGRAM_START as int + |RomBytes(rom)| <= MEM_SIZE
    ensures Wf(r)
  {
    var z := Reset(m);
    z.(pc := PROGRAM_START, mem := WriteBlock(z.mem, PROGRAM_START as int, RomBytes(rom)))
  }

  /** `Cpu::new`: all zero, pc at 0x200, no key, font loaded. */
  function Initial(): (m: Machine)
    ensures Wf(m)
  {
    Machine(WithFont(Zeros(MEM_SIZE)), PROGRAM_START, 0, ZeroWords(STACK_SIZE), 0, 0, 0, Zeros(REGISTER_COUNT),
            AllOff(AlterDisplay.CELLS), AllOff(KEY_COUNT), None)
  }
}
