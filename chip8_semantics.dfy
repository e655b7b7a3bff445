/**
 * The instruction semantics of the current processor (tomo/src/chip8/processor.rs), stated
 * on a value snapshot of the machine. The class in chip8_processor.dfy updates its arrays in
 * place and is proved to follow these functions step by step; the lemmas here state what
 * each instruction does.
 *
 * Execution is split as the source splits it: a handler mutates the machine and returns a
 * program-counter outcome (Next, Skip, Block or Jump), and the outcome is applied once at
 * the end. The fetch does not advance pc.
 */
module Chip8Semantics {
  import opened Bits
  import SpriteBlit
  import Chip8Display

  // Sizes of the machine, from the constants module that processor.rs imports.
  const RAM_SIZE: nat := 4096
  const STACK_SIZE: nat := 16
  const REGISTER_SIZE: nat := 18
  const OPCODE_SIZE: nat := 2
  const DISPLAY_WIDTH: nat := 64
  const DISPLAY_HEIGHT: nat := 32
  const KEY_COUNT: nat := 16
  const FONT_SIZE: nat := 80
  const PROGRAM_START: u16 := 0x200

  // Indices of the `Register` enum: V0 .. VF are 0 .. 15, then the two timers.
  const V0: nat := 0
  const VF: nat := 15
  const DT: nat := 16
  const ST: nat := 17

  /**
   * How the drawing loop of processor.rs addresses the display: it calls
   * `get_pixel(row, col)`, i.e. cell row + col * 32 of the 2048-cell buffer, which is the
   * column-major layout of a 64 × 32 screen.
   */
  const SCREEN: SpriteBlit.Screen := SpriteBlit.Screen(DISPLAY_WIDTH, DISPLAY_HEIGHT, SpriteBlit.ColumnMajor)

  /** The keypad keys in the declaration order of the `Key` enum. */
  datatype Key = K1 | K2 | K3 | K4 | K5 | K6 | K7 | K8 | K9 | K0 | KA | KB | KC | KD | KE | KF

  /** `key as usize`: the position of the key in the enum (K1 is 0, K0 is 9, KF is 15). */
  function KeyIndex(k: Key): (n: nat)
    ensures n < KEY_COUNT
  {
    match k
    case K1 => 0  case K2 => 1  case K3 => 2  case K4 => 3
    case K5 => 4  case K6 => 5  case K7 => 6  case K8 => 7
    case K9 => 8  case K0 => 9  case KA => 10 case KB => 11
    case KC => 12 case KD => 13 case KE => 14 case KF => 15
  }

  /** Distinct keys have distinct indices, so the key array has one slot per key. */
  lemma KeyIndexInjective(a: Key, b: Key)
    ensures KeyIndex(a) == KeyIndex(b) <==> a == b
  {
  }

  /** The outcome a handler reports; the new pc is computed from it once, after the handler. */
  datatype ProgramCounter = Next | Skip | Block | Jump(addr: u16)

  /** `ProgramCounter::skip_if`: Skip exactly when the condition holds, Next otherwise. */
  function SkipIf(condition: bool): (pc: ProgramCounter)
    ensures pc.Skip? <==> condition
    ensures pc.Next? <==> !condition
  {
    if condition then Skip else Next
  }

  /** A snapshot of a `Processor`: the display buffer appears as its cells. */
  datatype Machine = Machine(
    ram: seq<byte>,
    pc: u16,
    iReg: u16,
    stack: seq<u16>,
    sp: u16,
    registers: seq<byte>,
    pixels: seq<bool>,
    keys: seq<bool>,
    currentKey: Option<Key>)

  predicate Wf(m: Machine)
  {
    && |m.ram| == RAM_SIZE
    && |m.stack| == STACK_SIZE
    && |m.registers| == REGISTER_SIZE
    && |m.pixels| == Chip8Display.CELLS
    && |m.keys| == KEY_COUNT
  }

  // ---------------------------------------------------------------------------------------
  // Fetch and decode

  /** `fetch`: the big-endian word at pc. The fetch itself leaves pc where it is. */
  function Fetch(m: Machine): (op: bv16)
    requires Wf(m) && m.pc as int + 1 < RAM_SIZE
    ensures (op >> 8) as byte == m.ram[m.pc] && (op & 0xFF) as byte == m.ram[m.pc + 1]
  {
    ((m.ram[m.pc] as bv16) << 8) | (m.ram[m.pc + 1] as bv16)
  }

  /** The fields `execute` cuts out of an opcode. */
  datatype Decoded = Decoded(n0: nat, x: nat, y: nat, n: nat, nnn: nat, kk: byte)

  /**
   * The nibble tuple ((op & 0xF000) >> 12, (op & 0x0F00) >> 8, (op & 0x00F0) >> 4,
   * op & 0x000F), the address op & 0x0FFF and the byte op & 0x00FF.
   */
  function Decode(op: bv16): (d: Decoded)
    ensures d.n0 < 16 && d.x < 16 && d.y < 16 && d.n < 16 && d.nnn < 0x1000
  {
    var v := op as int;
    DecodeArith(v);
    Decoded(v / 0x1000, (v / 0x100) % 0x10, (v / 0x10) % 0x10, v % 0x10, v % 0x1000, (op & 0xFF) as byte)
  }

  /**
   * Decoding loses nothing: the four nibbles put back together give the opcode, the address
   * is its last three nibbles.
   */
  lemma DecodeLosesNothing(op: bv16)
    ensures var d := Decode(op);
      && d.n0 * 0x1000 + d.x * 0x100 + d.y * 0x10 + d.n == op as int
      && d.nnn == d.x * 0x100 + d.y * 0x10 + d.n
  {
    DecodeArith(op as int);
  }

  lemma DecodeArith(v: int)
    requires 0 <= v < 0x1_0000
    ensures v / 0x1000 < 16
    ensures (v / 0x1000) * 0x1000 + ((v / 0x100) % 0x10) * 0x100 + ((v / 0x10) % 0x10) * 0x10 + v % 0x10 == v
    ensures v % 0x1000 == ((v / 0x100) % 0x10) * 0x100 + ((v / 0x10) % 0x10) * 0x10 + v % 0x10
    ensures v % 0x100 == ((v / 0x10) % 0x10) * 0x10 + v % 0x10
  {
    var hi, lo := v / 0x100, v % 0x100;
    assert v == hi * 0x100 + lo;
    assert hi < 0x100;
    var n0, x := hi / 0x10, hi % 0x10;
    assert hi == n0 * 0x10 + x;
    var y, n := lo / 0x10, lo % 0x10;
    assert lo == y * 0x10 + n;
    assert v / 0x10 == hi * 0x10 + y;
    assert (v / 0x10) % 0x10 == y;
    assert v / 0x1000 == n0;
    assert v % 0x1000 == x * 0x100 + lo;
  }

  // ---------------------------------------------------------------------------------------
  // Which opcodes are recognised: the match arms of `execute`, as a flat table

  /** One position of a match pattern: a wildcard or a fixed nibble. */
  datatype Nibble = Any | Is(v: nat)

  datatype Pattern = Pattern(n0: Nibble, x: Nibble, y: Nibble, n: Nibble)

  /** The 34 patterns `execute` has an arm for, in the order of the source. */
  const PATTERNS: seq<Pattern> := [
    Pattern(Is(0x0), Is(0x0), Is(0xE), Is(0x0)), Pattern(Is(0x0), Is(0x0), Is(0xE), Is(0xE)),
    Pattern(Is(0x1), Any, Any, Any), Pattern(Is(0x2), Any, Any, Any),
    Pattern(Is(0x3), Any, Any, Any), Pattern(Is(0x4), Any, Any, Any),
    Pattern(Is(0x5), Any, Any, Is(0x0)), Pattern(Is(0x6), Any, Any, Any),
    Pattern(Is(0x7), Any, Any, Any), Pattern(Is(0x8), Any, Any, Is(0x0)),
    Pattern(Is(0x8), Any, Any, Is(0x1)), Pattern(Is(0x8), Any, Any, Is(0x2)),
    Pattern(Is(0x8), Any, Any, Is(0x3)), Pattern(Is(0x8), Any, Any, Is(0x4)),
    Pattern(Is(0x8), Any, Any, Is(0x5)), Pattern(Is(0x8), Any, Any, Is(0x6)),
    Pattern(Is(0x8), Any, Any, Is(0x7)), Pattern(Is(0x8), Any, Any, Is(0xE)),
    Pattern(Is(0x9), Any, Any, Is(0x0)), Pattern(Is(0xA), Any, Any, Any),
    Pattern(Is(0xB), Any, Any, Any), Pattern(Is(0xC), Any, Any, Any),
    Pattern(Is(0xD), Any, Any, Any), Pattern(Is(0xE), Any, Is(0x9), Is(0xE)),
    Pattern(Is(0xE), Any, Is(0xA), Is(0x1)), Pattern(Is(0xF), Any, Is(0x0), Is(0x7)),
    Pattern(Is(0xF), Any, Is(0x0), Is(0xA)), Pattern(Is(0xF), Any, Is(0x1), Is(0x5)),
    Pattern(Is(0xF), Any, Is(0x1), Is(0x8)), Pattern(Is(0xF), Any, Is(0x1), Is(0xE)),
    Pattern(Is(0xF), Any, Is(0x2), Is(0x9)), Pattern(Is(0xF), Any, Is(0x3), Is(0x3)),
    Pattern(Is(0xF), Any, Is(0x5), Is(0x5)), Pattern(Is(0xF), Any, Is(0x6), Is(0x5))
  ]

  predicate NibbleFits(p: Nibble, v: nat)
  {
    match p
    case Any => true
    case Is(w) => v == w
  }

  predicate Fits(d: Decoded, p: Pattern)
  {
    NibbleFits(p.n0, d.n0) && NibbleFits(p.x, d.x) && NibbleFits(p.y, d.y) && NibbleFits(p.n, d.n)
  }

  /** The opcode falls under one of the arms of `execute`. */
  predicate Recognized(op: bv16)
  {
    exists k :: 0 <= k < |PATTERNS| && Fits(Decode(op), PATTERNS[k])
  }

  // ---------------------------------------------------------------------------------------
  // Handlers

  /** What a handler leaves behind: the machine (pc untouched), the outcome and `success`. */
  datatype Effect = Effect(m: Machine, change: ProgramCounter, success: bool)

  /** The catch-all arm: nothing changes, `success` is false and pc moves on. */
  function Invalid(m: Machine): Effect
  {
    Effect(m, Next, false)
  }

  // Where a handler would panic in the source; the model demands that it does not.

  /** 00EE pops: the stack pointer must be at least 1 (and the entry below it must exist). */
  predicate SystemDefined(m: Machine, d: Decoded)
  {
    (d.x, d.y, d.n) == (0, 0xE, 0xE) ==> 1 <= m.sp as int <= STACK_SIZE
  }

  /** 2nnn pushes: the stack pointer must index a slot. */
  predicate BasicDefined(m: Machine, d: Decoded)
  {
    d.n0 == 0x2 ==> m.sp as int < STACK_SIZE
  }

  /** Dxyn reads ram[I .. I + n]. */
  predicate DrawDefined(m: Machine, d: Decoded)
  {
    d.n == 0 || m.iReg as int + d.n <= RAM_SIZE
  }

  /** Ex9E and ExA1 index the key array with Vx. */
  predicate KeysDefined(m: Machine, d: Decoded)
    requires Wf(m) && d.x < 16
  {
    (d.y, d.n) == (0x9, 0xE) || (d.y, d.n) == (0xA, 0x1) ==> m.registers[d.x] as int < KEY_COUNT
  }

  /** Fx1E and Fx29 compute a u16 and a u8; Fx33, Fx55 and Fx65 index ram from I. */
  predicate MiscDefined(m: Machine, d: Decoded)
    requires Wf(m) && d.x < 16
  {
    && ((d.y, d.n) == (0x1, 0xE) ==> m.iReg as int + m.registers[d.x] as int < 0x1_0000)
    && ((d.y, d.n) == (0x2, 0x9) ==> m.registers[d.x] as int * 5 < 0x100)
    && ((d.y, d.n) == (0x3, 0x3) ==> m.iReg as int + 2 < RAM_SIZE)
    && ((d.y, d.n) == (0x5, 0x5) || (d.y, d.n) == (0x6, 0x5) ==> m.iReg as int + REGISTER_SIZE <= RAM_SIZE)
  }

  /** The handler `execute` picks for `op` would not panic. */
  predicate HandlerDefined(m: Machine, op: bv16)
    requires Wf(m)
  {
    var d := Decode(op);
    match d.n0
    case 0x0 => SystemDefined(m, d)
    case 0x8 => true
    case 0xD => DrawDefined(m, d)
    case 0xE => KeysDefined(m, d)
    case 0xF => MiscDefined(m, d)
    case _ => BasicDefined(m, d)
  }

  /** 00E0 (CLS) and 00EE (RET); every other 0x0 opcode is unrecognised. */
  function HandleSystem(m: Machine, d: Decoded): (e: Effect)
    requires Wf(m) && d.n0 == 0 && d.x < 16 && d.y < 16 && d.n < 16 && SystemDefined(m, d)
    ensures Wf(e.m) && e.m.pc == m.pc && e.m.keys == m.keys && e.m.currentKey == m.currentKey
    ensures !e.success ==> e == Invalid(m)
  {
    match (d.x, d.y, d.n)
    case (0x0, 0xE, 0x0) => Effect(m.(pixels := AllOff(Chip8Display.CELLS)), Next, true)
    case (0x0, 0xE, 0xE) =>
      var sp := m.sp - 1;
      Effect(m.(sp := sp), Jump(m.stack[sp]), true)
    case _ => Invalid(m)
  }

  /** The arms with a single-nibble pattern or a register comparison: 1nnn .. Cxkk except 8xy_. */
  function HandleBasic(m: Machine, d: Decoded, rnd: byte): (e: Effect)
    requires Wf(m) && d.x < 16 && d.y < 16 && d.nnn < 0x1000 && BasicDefined(m, d)
    ensures Wf(e.m) && e.m.pc == m.pc && e.m.keys == m.keys && e.m.currentKey == m.currentKey
    ensures !e.success ==> e == Invalid(m)
  {
    var vx := m.registers[d.x];
    var vy := m.registers[d.y];
    match d.n0
    case 0x1 => Effect(m, Jump(d.nnn), true)
    case 0x2 =>
      var ret := (m.pc as int + OPCODE_SIZE) % 0x1_0000;
      Effect(m.(stack := m.stack[m.sp := ret], sp := m.sp + 1), Jump(d.nnn), true)
    case 0x3 => Effect(m, SkipIf(vx == d.kk), true)
    case 0x4 => Effect(m, SkipIf(vx != d.kk), true)
    case 0x5 => if d.n == 0 then Effect(m, SkipIf(vx == vy), true) else Invalid(m)
    case 0x6 => Effect(m.(registers := m.registers[d.x := d.kk]), Next, true)
    case 0x7 => Effect(m.(registers := m.registers[d.x := vx + d.kk]), Next, true)
    case 0x9 => if d.n == 0 then Effect(m, SkipIf(vx != vy), true) else Invalid(m)
    case 0xA => Effect(m.(iReg := d.nnn), Next, true)
    case 0xB => Effect(m, Jump(d.nnn + m.registers[V0] as int), true)
    case 0xC => Effect(m.(registers := m.registers[d.x := rnd & d.kk]), Next, true)
    case _ => Invalid(m)
  }

  /** 8xy0 .. 8xy3: Vx becomes Vy, Vx | Vy, Vx & Vy or Vx ^ Vy. */
  function LogicOp(r: seq<byte>, x: nat, y: nat, n: nat): (r': seq<byte>)
    requires |r| == REGISTER_SIZE && x < 16 && y < 16 && n < 4
    ensures |r'| == REGISTER_SIZE
  {
    var vx := r[x];
    var vy := r[y];
    match n
    case 0x0 => r[x := vy]
    case 0x1 => r[x := vx | vy]
    case 0x2 => r[x := vx & vy]
    case 0x3 => r[x := vx ^ vy]
  }

  /**
   * 8xy4 .. 8xy7 and 8xyE, the arms that set VF. Where VF is written first, the following
   * write reads the registers again, so with x or y equal to 15 the flag takes part in the
   * arithmetic; where VF is written last (8xy4, whose sum is taken in u16), it wins over Vx.
   */
  function FlagOp(r: seq<byte>, x: nat, y: nat, n: nat): (r': seq<byte>)
    requires |r| == REGISTER_SIZE && x < 16 && y < 16 && n in {0x4, 0x5, 0x6, 0x7, 0xE}
    ensures |r'| == REGISTER_SIZE
  {
    var vx := r[x];
    var vy := r[y];
    match n
    case 0x4 =>
      var sum := vx as bv16 + vy as bv16;
      var r1 := r[x := (sum & 0xFF) as byte];
      r1[VF := FlagByte(sum > 0xFF)]
    case 0x5 =>
      var r1 := r[VF := FlagByte(vx > vy)];
      r1[x := r1[x] - r1[y]]
    case 0x6 =>
      var r1 := r[VF := vx & 1];
      r1[x := r1[x] >> 1]
    case 0x7 =>
      var r1 := r[VF := FlagByte(vy > vx)];
      r1[x := r1[y] - r1[x]]
    case 0xE =>
      var r1 := r[VF := (vx & 0x80) >> 7];
      r1[x := r1[x] << 1]
  }

  /** The 8xy_ arms; an 8xy_ with another last nibble is unrecognised. */
  function HandleAlu(m: Machine, d: Decoded): (e: Effect)
    requires Wf(m) && d.x < 16 && d.y < 16
    ensures Wf(e.m) && e.m.pc == m.pc && e.m.keys == m.keys && e.m.currentKey == m.currentKey
    ensures !e.success ==> e == Invalid(m)
  {
    if d.n < 4 then Effect(m.(registers := LogicOp(m.registers, d.x, d.y, d.n)), Next, true)
    else if d.n in {0x4, 0x5, 0x6, 0x7, 0xE} then Effect(m.(registers := FlagOp(m.registers, d.x, d.y, d.n)), Next, true)
    else Invalid(m)
  }

  /** Registers and display cells while Dxyn runs. */
  datatype Canvas = Canvas(registers: seq<byte>, pixels: seq<bool>)

  predicate CanvasWf(c: Canvas)
  {
    |c.registers| == REGISTER_SIZE && |c.pixels| == Chip8Display.CELLS
  }

  /**
   * The cell that `get_pixel(row, col)` and `set_pixel(row, col)` address: the display computes
   * its first argument plus its second times BREITE (32).
   */
  function PixelIndex(row: nat, col: nat): (p: nat)
    requires row < DISPLAY_HEIGHT && col < DISPLAY_WIDTH
    ensures p < Chip8Display.CELLS
  {
    row + col * Chip8Display.BREITE
  }

  /** That cell is the one the column-major 64 × 32 screen puts at (col, row). */
  lemma PixelIndexIsCell(row: nat, col: nat)
    requires row < DISPLAY_HEIGHT && col < DISPLAY_WIDTH
    ensures PixelIndex(row, col) == SpriteBlit.Cell(SCREEN, col, row)
  {
  }

  /** A coordinate register plus an offset, wrapped to the screen: (v + k) mod size. */
  function Wrap(v: byte, k: nat, size: nat): (w: nat)
    requires 0 < size
    ensures w < size
  {
    (v as int + k) % size
  }

  /**
   * One pass of the inner Dxyn loop: the column is recomputed from the current Vx, the
   * colour is bit `bit` of sprite row `row`, VF collects colour & pixel, and the cell is
   * always rewritten as pixel XOR colour.
   */
  function DrawBit(c: Canvas, ram: seq<byte>, iReg: nat, x: nat, row: nat, screenRow: nat, bit: nat): (r: Canvas)
    requires CanvasWf(c) && |ram| == RAM_SIZE && iReg + row < RAM_SIZE
    requires x < 16 && screenRow < DISPLAY_HEIGHT && bit < 8
    ensures CanvasWf(r)
  {
    var col := Wrap(c.registers[x], bit, DISPLAY_WIDTH);
    var color := BitAt(ram[iReg + row], bit);
    var p := PixelIndex(screenRow, col);
    var lit := c.pixels[p];
    Canvas(c.registers[VF := c.registers[VF] | (FlagByte(color) & FlagByte(lit))], c.pixels[p := lit != color])
  }

  /** Bits 0 .. b-1 of sprite row `row`, drawn on screen row `screenRow`. */
  function DrawRowBits(c: Canvas, ram: seq<byte>, iReg: nat, x: nat, row: nat, screenRow: nat, b: nat): (r: Canvas)
    requires CanvasWf(c) && |ram| == RAM_SIZE && iReg + row < RAM_SIZE
    requires x < 16 && screenRow < DISPLAY_HEIGHT && b <= 8
    ensures CanvasWf(r)
    // The row index is part of the measure so that a literal bit count does not unroll the recursion.
    decreases b, row
  {
    if b == 0 then c
    else DrawBit(DrawRowBits(c, ram, iReg, x, row, screenRow, b - 1), ram, iReg, x, row, screenRow, b - 1)
  }

  /** Sprite rows 0 .. r-1; the screen row of each is computed from Vy as it is when the row starts. */
  function DrawSpriteRows(c: Canvas, ram: seq<byte>, iReg: nat, x: nat, y: nat, r: nat): (d: Canvas)
    requires CanvasWf(c) && |ram| == RAM_SIZE && (r == 0 || iReg + r <= RAM_SIZE) && x < 16 && y < 16
    ensures CanvasWf(d)
    decreases r
  {
    if r == 0 then c
    else
      var prev := DrawSpriteRows(c, ram, iReg, x, y, r - 1);
      var screenRow := Wrap(prev.registers[y], r - 1, DISPLAY_HEIGHT);
      DrawRowBits(prev, ram, iReg, x, r - 1, screenRow, 8)
  }

  /** Dxyn: VF is cleared, then the n sprite rows at ram[I..] are drawn. */
  function HandleDraw(m: Machine, d: Decoded): (e: Effect)
    requires Wf(m) && d.x < 16 && d.y < 16 && DrawDefined(m, d)
    ensures Wf(e.m) && e.m.pc == m.pc && e.m.keys == m.keys && e.m.currentKey == m.currentKey
    ensures e.success && e.change == Next
  {
    var c := DrawSpriteRows(Canvas(m.registers[VF := 0], m.pixels), m.ram, m.iReg as int, d.x, d.y, d.n);
    Effect(m.(registers := c.registers, pixels := c.pixels), Next, true)
  }

  /** Ex9E (SKP) and ExA1 (SKNP): skip on the state of the key numbered Vx. */
  function HandleKeys(m: Machine, d: Decoded): (e: Effect)
    requires Wf(m) && d.x < 16 && KeysDefined(m, d)
    ensures Wf(e.m) && e.m.pc == m.pc && e.m.keys == m.keys && e.m.currentKey == m.currentKey
    ensures !e.success ==> e == Invalid(m)
  {
    match (d.y, d.n)
    case (0x9, 0xE) => Effect(m, SkipIf(m.keys[m.registers[d.x]]), true)
    case (0xA, 0x1) => Effect(m, SkipIf(!m.keys[m.registers[d.x]]), true)
    case _ => Invalid(m)
  }

  /** The byte the three BCD digits of v are stored as, hundreds first. */
  function BcdDigits(v: byte): (digits: seq<byte>)
    ensures |digits| == 3
    ensures forall k :: 0 <= k < 3 ==> digits[k] < 10
    ensures digits[0] as int * 100 + digits[1] as int * 10 + digits[2] as int == v as int
  {
    [v / 100, (v % 100) / 10, v % 10]
  }

  /** `ram` with `block` written from address `at` on. */
  function WriteBlock(ram: seq<byte>, at: nat, block: seq<byte>): (r: seq<byte>)
    requires at + |block| <= |ram|
    ensures |r| == |ram|
    ensures r[at..at + |block|] == block
    ensures forall k :: 0 <= k < |ram| && !(at <= k < at + |block|) ==> r[k] == ram[k]
  {
    ram[..at] + block + ram[at + |block|..]
  }

  /** Writing one byte more of a block: the block grows by the byte at its end. */
  lemma WriteBlockGrows(ram: seq<byte>, at: nat, block: seq<byte>, i: nat)
    requires i < |block| && at + |block| <= |ram|
    ensures WriteBlock(ram, at, block[..i + 1]) == WriteBlock(ram, at, block[..i])[at + i := block[i]]
  {
    var longer, shorter := WriteBlock(ram, at, block[..i + 1]), WriteBlock(ram, at, block[..i])[at + i := block[i]];
    forall k | 0 <= k < |ram|
      ensures longer[k] == shorter[k]
    {
      if at <= k < at + i + 1 {
        assert longer[k] == longer[at..at + i + 1][k - at];
        if k < at + i {
          assert shorter[k] == WriteBlock(ram, at, block[..i])[at..at + i][k - at];
        }
      }
    }
  }

  /** A block as long as the memory it is written to replaces all of it. */
  lemma WriteBlockWhole(ram: seq<byte>, block: seq<byte>)
    requires |block| == |ram|
    ensures WriteBlock(ram, 0, block) == block
  {
    assert WriteBlock(ram, 0, block) == WriteBlock(ram, 0, block)[0..|block|];
  }

  /** The Fx__ arms: timers, waiting for a key, the index register, BCD and block moves. */
  function HandleMisc(m: Machine, d: Decoded): (e: Effect)
    requires Wf(m) && d.x < 16 && MiscDefined(m, d)
    ensures Wf(e.m) && e.m.pc == m.pc && e.m.keys == m.keys && e.m.currentKey == m.currentKey
    ensures !e.success ==> e == Invalid(m)
  {
    var r := m.registers;
    var vx := r[d.x];
    match (d.y, d.n)
    case (0x0, 0x7) => Effect(m.(registers := r[d.x := r[DT]]), Next, true)
    case (0x0, 0xA) =>
      (match m.currentKey
       case Some(k) => Effect(m.(registers := r[d.x := KeyIndex(k) as byte]), Next, true)
       case None => Effect(m, Block, true))
    case (0x1, 0x5) => Effect(m.(registers := r[DT := vx]), Next, true)
    case (0x1, 0x8) => Effect(m.(registers := r[ST := vx]), Next, true)
    case (0x1, 0xE) =>
      var i := m.iReg as int + vx as int;
      Effect(m.(iReg := i, registers := r[VF := FlagByte(i > 0xF00)]), Next, true)
    case (0x2, 0x9) => Effect(m.(iReg := vx as int * 5), Next, true)
    case (0x3, 0x3) => Effect(m.(ram := WriteBlock(m.ram, m.iReg as int, BcdDigits(vx))), Next, true)
    case (0x5, 0x5) => Effect(m.(ram := WriteBlock(m.ram, m.iReg as int, r)), Next, true)
    case (0x6, 0x5) => Effect(m.(registers := m.ram[m.iReg..m.iReg as int + REGISTER_SIZE]), Next, true)
    case _ => Invalid(m)
  }

  /**
   * The handler part of `execute`: the arm chosen by the nibble tuple, grouped by the first
   * nibble. No handler touches pc, the keys or the current key, and an unrecognised opcode
   * changes nothing.
   */
  function Handle(m: Machine, op: bv16, rnd: byte): (e: Effect)
    requires Wf(m) && HandlerDefined(m, op)
    ensures Wf(e.m)
    ensures e.m.pc == m.pc && e.m.keys == m.keys && e.m.currentKey == m.currentKey
    ensures !e.success ==> e == Invalid(m)
  {
    var d := Decode(op);
    match d.n0
    case 0x0 => HandleSystem(m, d)
    case 0x8 => HandleAlu(m, d)
    case 0xD => HandleDraw(m, d)
    case 0xE => HandleKeys(m, d)
    case 0xF => HandleMisc(m, d)
    case _ => HandleBasic(m, d, rnd)
  }

  // ---------------------------------------------------------------------------------------
  // Applying the outcome

  /** The pc update of `execute` would not overflow or underflow its u16. */
  predicate PcStepDefined(pc: u16, change: ProgramCounter)
  {
    match change
    case Next => pc as int + OPCODE_SIZE < 0x1_0000
    case Skip => pc as int + 2 * OPCODE_SIZE < 0x1_0000
    case Block => pc as int >= OPCODE_SIZE
    case Jump(_) => true
  }

  /** The new pc for an outcome: +2, +4, -2, or the jump target. */
  function PcStep(pc: u16, change: ProgramCounter): (r: u16)
    requires PcStepDefined(pc, change)
  {
    match change
    case Next => pc + OPCODE_SIZE
    case Skip => pc + 2 * OPCODE_SIZE
    case Block => pc - OPCODE_SIZE
    case Jump(addr) => addr
  }

  /** The source's `execute` would run to its end without a panic. */
  predicate CanExecute(m: Machine, op: bv16, rnd: byte)
  {
    Wf(m) && HandlerDefined(m, op) && PcStepDefined(m.pc, Handle(m, op, rnd).change)
  }

  /** The result of `execute`: the new machine and the `success` field of its `Output`. */
  datatype Step = Step(m: Machine, success: bool)

  /** `execute`: run the handler, then apply its outcome to pc. */
  function Exec(m: Machine, op: bv16, rnd: byte): (s: Step)
    requires CanExecute(m, op, rnd)
    ensures Wf(s.m)
  {
    var e := Handle(m, op, rnd);
    Step(e.m.(pc := PcStep(m.pc, e.change)), e.success)
  }

  // ---------------------------------------------------------------------------------------
  // Timers, keys, reset and load

  /** The timer part of `tick`: DT and ST each count down by one unless they are zero. */
  function DecrementTimers(m: Machine): (r: Machine)
    requires Wf(m)
    ensures Wf(r)
  {
    var dt := m.registers[DT];
    var st := m.registers[ST];
    var r1 := m.registers[DT := if dt > 0 then dt - 1 else dt];
    m.(registers := r1[ST := if st > 0 then st - 1 else st])
  }

  /** `tick` would not panic: it decrements the timers, fetches at pc and executes. */
  predicate CanTick(m: Machine, rnd: byte)
  {
    Wf(m) && m.pc as int + 1 < RAM_SIZE && CanExecute(DecrementTimers(m), Fetch(DecrementTimers(m)), rnd)
  }

  /** `tick`. */
  function Tick(m: Machine, rnd: byte): (s: Step)
    requires CanTick(m, rnd)
    ensures Wf(s.m)
  {
    var m1 := DecrementTimers(m);
    Exec(m1, Fetch(m1), rnd)
  }

  /** `should_beep`: the sound timer is running. */
  predicate ShouldBeep(m: Machine)
    requires Wf(m)
  {
    m.registers[ST] > 0
  }

  /** `key_press`: the key becomes the current key and is marked down. */
  function KeyPress(m: Machine, k: Key): (r: Machine)
    requires Wf(m)
    ensures Wf(r)
  {
    m.(currentKey := Some(k), keys := m.keys[KeyIndex(k) := true])
  }

  /** `key_up`: the key is marked up; it stops being the current key only if it was it. */
  function KeyUp(m: Machine, k: Key): (r: Machine)
    requires Wf(m)
    ensures Wf(r)
  {
    m.(currentKey := if m.currentKey == Some(k) then None else m.currentKey, keys := m.keys[KeyIndex(k) := false])
  }

  /** What `initialize` leaves in RAM: the font at 0 .. 79, the rest as it was. */
  function WithFont(ram: seq<byte>): (r: seq<byte>)
    requires |ram| == RAM_SIZE
    ensures |r| == RAM_SIZE && r[..FONT_SIZE] == Chip8Display.FONT && r[FONT_SIZE..] == ram[FONT_SIZE..]
  {
    WriteBlock(ram, 0, Chip8Display.FONT)
  }

  /** `reset`: memory, stack and registers zeroed, pc at the program start, display cleared, font reloaded. */
  function Reset(m: Machine): (r: Machine)
    requires Wf(m)
    ensures Wf(r)
  {
    m.(ram := WithFont(Zeros(RAM_SIZE)), stack := ZeroWords(STACK_SIZE), registers := Zeros(REGISTER_SIZE),
       sp := 0, pc := PROGRAM_START, pixels := AllOff(Chip8Display.CELLS))
  }

  /** `load`: a reset, then the data copied to RAM from the program start. */
  function Load(m: Machine, data: seq<byte>): (r: Machine)
    requires Wf(m) && PROGRAM_START as int + |data| <= RAM_SIZE
    ensures Wf(r)
  {
    var z := Reset(m);
    z.(ram := WriteBlock(z.ram, PROGRAM_START as int, data))
  }

  /** `Processor::new`: all zero, pc at the program start, no key, font loaded. */
  function Initial(): (m: Machine)
    ensures Wf(m)
  {
    Machine(WithFont(Zeros(RAM_SIZE)), PROGRAM_START, 0, ZeroWords(STACK_SIZE), 0, Zeros(REGISTER_SIZE),
            AllOff(Chip8Display.CELLS), AllOff(KEY_COUNT), None)
  }
}
