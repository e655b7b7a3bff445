/**
 * What the instructions of the current processor do, stated against independent references:
 * plain integer arithmetic for the register operations, the generic XOR blit for Dxyn, and
 * the table of match arms for which opcodes are recognised.
 */
module Chip8Properties {
  import opened Bits
  import SpriteBlit
  import Chip8Display
  import opened Chip8Semantics

  // ---------------------------------------------------------------------------------------
  // Dxyn is the generic XOR blit

  /** The n sprite rows Dxyn reads: ram[I .. I + n]. */
  function SpriteAt(ram: seq<byte>, iReg: nat, n: nat): (sprite: seq<byte>)
    requires n == 0 || iReg + n <= |ram|
    ensures |sprite| == n
    ensures forall j :: 0 <= j < n ==> sprite[j] == ram[iReg + j]
  {
    if n == 0 then [] else ram[iReg..iReg + n]
  }

  /** The canvas Dxyn should hold for a blit state: its cells, VF holding the collision flag, other registers as in base. */
  function Expected(st: SpriteBlit.Blit, base: seq<byte>): (c: Canvas)
    requires |st.cells| == Chip8Display.CELLS && |base| == REGISTER_SIZE
    ensures CanvasWf(c)
  {
    Canvas(base[VF := FlagByte(st.collision)], st.cells)
  }

  lemma FlagOr(a: bool, b: bool, c: bool)
    ensures FlagByte(a) | (FlagByte(b) & FlagByte(c)) == FlagByte(a || (b && c))
  {
  }

  lemma DrawBitIsVisit(st: SpriteBlit.Blit, base: seq<byte>, ram: seq<byte>, iReg: nat, x: nat, y: nat, n: nat, row: nat, bit: nat)
    requires |st.cells| == Chip8Display.CELLS && |ram| == RAM_SIZE && |base| == REGISTER_SIZE && iReg + n <= RAM_SIZE
    requires x < 16 && y < 16 && x != VF && row < n && bit < 8
    ensures DrawBit(Expected(st, base), ram, iReg, x, row, Wrap(base[y], row, DISPLAY_HEIGHT), bit)
         == Expected(SpriteBlit.Visit(SCREEN, st, base[x] as int, base[y] as int, SpriteAt(ram, iReg, n), row, bit), base)
  {
    var color := BitAt(ram[iReg + row], bit);
    var p := SpriteBlit.Target(SCREEN, base[x] as int, base[y] as int, row, bit);
    PixelIndexIsCell(Wrap(base[y], row, DISPLAY_HEIGHT), Wrap(base[x], bit, DISPLAY_WIDTH));
    FlagOr(st.collision, color, st.cells[p]);
  }

  lemma {:induction false} DrawRowBitsIsDrawBits(st: SpriteBlit.Blit, base: seq<byte>, ram: seq<byte>, iReg: nat, x: nat, y: nat, n: nat, row: nat, b: nat)
    requires |st.cells| == Chip8Display.CELLS && |ram| == RAM_SIZE && |base| == REGISTER_SIZE && iReg + n <= RAM_SIZE
    requires x < 16 && y < 16 && x != VF && row < n && b <= 8
    ensures DrawRowBits(Expected(st, base), ram, iReg, x, row, Wrap(base[y], row, DISPLAY_HEIGHT), b)
         == Expected(SpriteBlit.DrawBits(SCREEN, st, base[x] as int, base[y] as int, SpriteAt(ram, iReg, n), row, b), base)
    decreases b
  {
    if b > 0 {
      DrawRowBitsIsDrawBits(st, base, ram, iReg, x, y, n, row, b - 1);
      DrawBitIsVisit(SpriteBlit.DrawBits(SCREEN, st, base[x] as int, base[y] as int, SpriteAt(ram, iReg, n), row, b - 1),
                     base, ram, iReg, x, y, n, row, b - 1);
    }
  }

  /** One whole sprite row: the row's eight bits, started from the canvas of the rows before it. */
  lemma RowStep(prev: Canvas, st: SpriteBlit.Blit, base: seq<byte>, ram: seq<byte>, iReg: nat, x: nat, y: nat, n: nat, row: nat)
    requires |st.cells| == Chip8Display.CELLS && |ram| == RAM_SIZE && |base| == REGISTER_SIZE && iReg + n <= RAM_SIZE
    requires x < 16 && y < 16 && x != VF && y != VF && row < n && prev == Expected(st, base)
    ensures DrawRowBits(prev, ram, iReg, x, row, Wrap(prev.registers[y], row, DISPLAY_HEIGHT), 8)
         == Expected(SpriteBlit.DrawBits(SCREEN, st, base[x] as int, base[y] as int, SpriteAt(ram, iReg, n), row, 8), base)
  {
    DrawRowBitsIsDrawBits(st, base, ram, iReg, x, y, n, row, 8);
  }

  /** Rows 0 .. r-1 agree once rows 0 .. r-2 do. */
  lemma RowsStep(base: seq<byte>, pixels: seq<bool>, ram: seq<byte>, iReg: nat, x: nat, y: nat, n: nat, r: nat)
    requires |ram| == RAM_SIZE && |base| == REGISTER_SIZE && |pixels| == Chip8Display.CELLS
    requires x < 16 && y < 16 && x != VF && y != VF && 0 < r <= n && iReg + n <= RAM_SIZE
    requires DrawSpriteRows(Canvas(base[VF := 0], pixels), ram, iReg, x, y, r - 1)
          == Expected(SpriteBlit.DrawRows(SCREEN, pixels, base[x] as int, base[y] as int, SpriteAt(ram, iReg, n), r - 1), base)
    ensures DrawSpriteRows(Canvas(base[VF := 0], pixels), ram, iReg, x, y, r)
         == Expected(SpriteBlit.DrawRows(SCREEN, pixels, base[x] as int, base[y] as int, SpriteAt(ram, iReg, n), r), base)
  {
    RowStep(DrawSpriteRows(Canvas(base[VF := 0], pixels), ram, iReg, x, y, r - 1),
            SpriteBlit.DrawRows(SCREEN, pixels, base[x] as int, base[y] as int, SpriteAt(ram, iReg, n), r - 1),
            base, ram, iReg, x, y, n, r - 1);
  }

  lemma {:induction false} DrawSpriteRowsIsDrawRows(base: seq<byte>, pixels: seq<bool>, ram: seq<byte>, iReg: nat, x: nat, y: nat, n: nat, r: nat)
    requires |ram| == RAM_SIZE && |base| == REGISTER_SIZE && |pixels| == Chip8Display.CELLS
    requires x < 16 && y < 16 && x != VF && y != VF && r <= n && (n == 0 || iReg + n <= RAM_SIZE)
    ensures DrawSpriteRows(Canvas(base[VF := 0], pixels), ram, iReg, x, y, r)
         == Expected(SpriteBlit.DrawRows(SCREEN, pixels, base[x] as int, base[y] as int, SpriteAt(ram, iReg, n), r), base)
    decreases r
  {
    if r == 0 {
      assert FlagByte(false) == 0;
    } else {
      DrawSpriteRowsIsDrawRows(base, pixels, ram, iReg, x, y, n, r - 1);
      RowsStep(base, pixels, ram, iReg, x, y, n, r);
    }
  }

  /** Dxyn succeeds, runs HandleDraw and moves pc to the next instruction. */
  lemma ExecDraw(m: Machine, op: bv16, rnd: byte)
    requires CanExecute(m, op, rnd) && Decode(op).n0 == 0xD
    ensures Exec(m, op, rnd) == Step(HandleDraw(m, Decode(op)).m.(pc := m.pc + OPCODE_SIZE), true)
  {
  }

  /**
   * Dxyn with x and y other than 15: the display becomes the XOR blit of the n bytes at I,
   * drawn at (Vx, Vy) on the 64 × 32 screen; VF is 1 exactly when the blit collided and no
   * other register changes. Every cell under a set bit is toggled and every other cell keeps
   * its value, and the collision happened exactly when some set bit landed on a lit cell.
   */
  lemma DrawIsBlit(m: Machine, d: Decoded)
    requires Wf(m) && d.x < 16 && d.y < 16 && d.n < 16 && d.x != VF && d.y != VF && DrawDefined(m, d)
    ensures var sprite := SpriteAt(m.ram, m.iReg as int, d.n);
      var vx, vy := m.registers[d.x] as int, m.registers[d.y] as int;
      var blit := SpriteBlit.Draw(SCREEN, m.pixels, vx, vy, sprite);
      && HandleDraw(m, d).m == m.(registers := m.registers[VF := FlagByte(blit.collision)], pixels := blit.cells)
      && (forall p :: 0 <= p < Chip8Display.CELLS ==> blit.cells[p] == (m.pixels[p] != SpriteBlit.Covered(SCREEN, vx, vy, sprite, p)))
      && (blit.collision <==> SpriteBlit.HitsLit(SCREEN, m.pixels, vx, vy, sprite))
  {
    DrawSpriteRowsIsDrawRows(m.registers, m.pixels, m.ram, m.iReg as int, d.x, d.y, d.n, d.n);
    SpriteBlit.DrawProperties(SCREEN, m.pixels, m.registers[d.x] as int, m.registers[d.y] as int, SpriteAt(m.ram, m.iReg as int, d.n));
  }

  // ---------------------------------------------------------------------------------------
  // Which opcodes succeed

  /** The recognised opcodes written out group by group, a second description of the table. */
  predicate KnownArm(d: Decoded)
  {
    match d.n0
    case 0x0 => d.x == 0x0 && d.y == 0xE && (d.n == 0x0 || d.n == 0xE)
    case 0x5 => d.n == 0x0
    case 0x8 => d.n < 0x8 || d.n == 0xE
    case 0x9 => d.n == 0x0
    case 0xE => (d.y, d.n) == (0x9, 0xE) || (d.y, d.n) == (0xA, 0x1)
    case 0xF => (d.y, d.n) in {(0x0, 0x7), (0x0, 0xA), (0x1, 0x5), (0x1, 0x8), (0x1, 0xE), (0x2, 0x9), (0x3, 0x3), (0x5, 0x5), (0x6, 0x5)}
    case _ => true
  }

  lemma SystemSuccess(m: Machine, d: Decoded)
    requires Wf(m) && d.n0 == 0 && d.x < 16 && d.y < 16 && d.n < 16 && SystemDefined(m, d)
    ensures HandleSystem(m, d).success <==> KnownArm(d)
  {
  }

  lemma BasicSuccess(m: Machine, d: Decoded, rnd: byte)
    requires Wf(m) && d.x < 16 && d.y < 16 && d.nnn < 0x1000 && BasicDefined(m, d)
    requires d.n0 !in {0x0, 0x8, 0xD, 0xE, 0xF} && d.n0 < 16
    ensures HandleBasic(m, d, rnd).success <==> KnownArm(d)
  {
  }

  lemma AluSuccess(m: Machine, d: Decoded)
    requires Wf(m) && d.n0 == 0x8 && d.x < 16 && d.y < 16 && d.n < 16
    ensures HandleAlu(m, d).success <==> KnownArm(d)
  {
  }

  lemma KeysSuccess(m: Machine, d: Decoded)
    requires Wf(m) && d.n0 == 0xE && d.x < 16 && KeysDefined(m, d)
    ensures HandleKeys(m, d).success <==> KnownArm(d)
  {
  }

  lemma MiscSuccess(m: Machine, d: Decoded)
    requires Wf(m) && d.n0 == 0xF && d.x < 16 && MiscDefined(m, d)
    ensures HandleMisc(m, d).success <==> KnownArm(d)
  {
  }

  lemma HandleSuccessIsKnownArm(m: Machine, op: bv16, rnd: byte)
    requires Wf(m) && HandlerDefined(m, op)
    ensures Handle(m, op, rnd).success <==> KnownArm(Decode(op))
  {
    var d := Decode(op);
    match d.n0
    case 0x0 => SystemSuccess(m, d);
    case 0x8 => AluSuccess(m, d);
    case 0xD =>
    case 0xE => KeysSuccess(m, d);
    case 0xF => MiscSuccess(m, d);
    case _ => BasicSuccess(m, d, rnd);
  }

  /** Every recognised opcode fits the pattern of the arm that runs it. */
  lemma KnownArmFits(d: Decoded)
    requires d.n0 < 16 && d.x < 16 && d.y < 16 && d.n < 16 && KnownArm(d)
    ensures exists k :: 0 <= k < |PATTERNS| && Fits(d, PATTERNS[k])
  {
    if d.n0 == 0x0 {
      if d.n == 0x0 { assert Fits(d, PATTERNS[0]); } else { assert Fits(d, PATTERNS[1]); }
    } else if d.n0 < 0x8 {
      assert Fits(d, PATTERNS[d.n0 + 1]);
    } else if d.n0 == 0x8 {
      if d.n < 0x8 { assert Fits(d, PATTERNS[d.n + 9]); } else { assert Fits(d, PATTERNS[17]); }
    } else if d.n0 < 0xE {
      assert Fits(d, PATTERNS[d.n0 + 9]);
    } else if d.n0 == 0xE {
      if d.y == 0x9 { assert Fits(d, PATTERNS[23]); } else { assert Fits(d, PATTERNS[24]); }
    } else {
      match (d.y, d.n)
      case (0x0, 0x7) => assert Fits(d, PATTERNS[25]);
      case (0x0, 0xA) => assert Fits(d, PATTERNS[26]);
      case (0x1, 0x5) => assert Fits(d, PATTERNS[27]);
      case (0x1, 0x8) => assert Fits(d, PATTERNS[28]);
      case (0x1, 0xE) => assert Fits(d, PATTERNS[29]);
      case (0x2, 0x9) => assert Fits(d, PATTERNS[30]);
      case (0x3, 0x3) => assert Fits(d, PATTERNS[31]);
      case (0x5, 0x5) => assert Fits(d, PATTERNS[32]);
      case (0x6, 0x5) => assert Fits(d, PATTERNS[33]);
    }
  }

  /** An opcode no arm recognises fits none of the patterns. */
  lemma UnknownFitsNone(d: Decoded)
    requires !KnownArm(d)
    ensures forall k :: 0 <= k < |PATTERNS| ==> !Fits(d, PATTERNS[k])
  {
  }

  /** The group-by-group description and the table of patterns agree. */
  lemma KnownArmIsRecognized(op: bv16)
    ensures KnownArm(Decode(op)) <==> Recognized(op)
  {
    if KnownArm(Decode(op)) {
      KnownArmFits(Decode(op));
    } else {
      UnknownFitsNone(Decode(op));
    }
  }

  /** `success` is true exactly for the opcodes that fall under one of the 34 patterns. */
  lemma SuccessIffRecognized(m: Machine, op: bv16, rnd: byte)
    requires CanExecute(m, op, rnd)
    ensures Exec(m, op, rnd).success <==> Recognized(op)
  {
    HandleSuccessIsKnownArm(m, op, rnd);
    KnownArmIsRecognized(op);
  }
}
