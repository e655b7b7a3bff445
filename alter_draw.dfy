/**
 * Dxyn of the older CPU (tomo/alter_chip/cpu.rs) against the generic XOR blit: with x and y
 * other than VF, the display ends as the blit of the n bytes at i drawn at (Vx, Vy) on the
 * 64 × 32 row-major screen, VF holds the collision flag and the reported indices are the
 * targets of all 8 · n sprite bits, set or not, row by row. For every x and y, Dxyn writes
 * no register other than VF and leaves VF at 0 or 1.
 */
module AlterDraw {
  import opened Bits
  import SpriteBlit
  import AlterDisplay
  import Chip8Properties
  import opened AlterSemantics

  // ---------------------------------------------------------------------------------------
  // The indices Dxyn reports

  /**
   * The targets of bits 0 .. b-1 of sprite row `row`, drawn at (vx, vy). The ensures gives
   * only the length; entry k is stated in RowTargetsAt.
   */
  function RowTargets(vx: nat, vy: nat, row: nat, b: nat): (t: seq<nat>)
    ensures |t| == b
    decreases b, row
  {
    if b == 0 then []
    else RowTargets(vx, vy, row, b - 1) + [SpriteBlit.Target(AlterDisplay.SCREEN, vx, vy, row, b - 1)]
  }

  /**
   * The targets of all eight bits of rows 0 .. r-1, row after row. The ensures gives only the
   * length; TargetsAt says which cell entry k is.
   */
  function Targets(vx: nat, vy: nat, r: nat): (t: seq<nat>)
    ensures |t| == 8 * r
  {
    if r == 0 then [] else Targets(vx, vy, r - 1) + RowTargets(vx, vy, r - 1, 8)
  }

  lemma {:induction false} RowTargetsAt(vx: nat, vy: nat, row: nat, b: nat)
    ensures forall i :: 0 <= i < b ==> RowTargets(vx, vy, row, b)[i] == SpriteBlit.Target(AlterDisplay.SCREEN, vx, vy, row, i)
    decreases b
  {
    if b > 0 {
      RowTargetsAt(vx, vy, row, b - 1);
    }
  }

  lemma Eighths(k: nat, r: nat)
    requires 8 * r <= k < 8 * r + 8
    ensures k / 8 == r && k % 8 == k - 8 * r
  {
  }

  /** Entry k of the reported indices is the target of bit k % 8 of row k / 8. */
  lemma {:induction false} TargetsAt(vx: nat, vy: nat, r: nat)
    ensures forall k :: 0 <= k < 8 * r ==> Targets(vx, vy, r)[k] == SpriteBlit.Target(AlterDisplay.SCREEN, vx, vy, k / 8, k % 8)
  {
    if r > 0 {
      TargetsAt(vx, vy, r - 1);
      RowTargetsAt(vx, vy, r - 1, 8);
      forall k | 8 * (r - 1) <= k < 8 * r
        ensures Targets(vx, vy, r)[k] == SpriteBlit.Target(AlterDisplay.SCREEN, vx, vy, k / 8, k % 8)
      {
        Eighths(k, r - 1);
      }
    }
  }

  /** The wraps of Dxyn are the remainders modulo the screen's width and height. */
  lemma WrapIsMod(p: byte)
    ensures WrapX(p) as int == p as int % AlterDisplay.BREITE
    ensures WrapY(p) as int == p as int % AlterDisplay.HOEHE
  {
    LowBits(p);
    Compare(64, p);
    Compare(32, p);
  }

  /**
   * Bit `bit` of row `row` of a sprite started at (vx, vy): the counters px and py, which have
   * moved on by `bit` and `row` without overflow, lead to the blit's target cell.
   */
  lemma IndexIsTarget(vx: byte, vy: byte, px: byte, py: byte, row: nat, bit: nat)
    requires bit < 8 && px as int == vx as int + bit && py as int == vy as int + row
    ensures DisplayIndex(WrapX(px), WrapY(py)) == SpriteBlit.Target(AlterDisplay.SCREEN, vx as int, vy as int, row, bit)
  {
    WrapIsMod(px);
    WrapIsMod(py);
  }

  // ---------------------------------------------------------------------------------------
  // The drawing loops are the blit

  /** The canvas Dxyn should hold for a blit state: VF holds the collision flag, the other registers are base. */
  function Expected(st: SpriteBlit.Blit, base: seq<byte>, edited: seq<nat>): (c: Canvas)
    requires |st.cells| == AlterDisplay.CELLS && |base| == REGISTER_COUNT
    ensures CanvasWf(c)
  {
    Canvas(base[VF := FlagByte(st.collision)], st.cells, edited)
  }

  /** VF after one bit: it is set once a set bit meets a lit cell and then stays set. */
  lemma FlagStep(base: seq<byte>, collision: bool, hit: bool)
    requires |base| == REGISTER_COUNT
    ensures var regs := base[VF := FlagByte(collision)];
      (if regs[VF] == 0 && hit then regs[VF := 1] else regs) == base[VF := FlagByte(collision || hit)]
  {
  }

  lemma SameCell(cells: seq<bool>, p: nat)
    requires p < |cells|
    ensures cells[p := cells[p]] == cells
  {
  }

  /** The canvas once bits 0 .. bit-1 of row `row` have been drawn on top of st. */
  function BitsCanvas(st: SpriteBlit.Blit, base: seq<byte>, edited: seq<nat>, mem: seq<byte>, i: nat, n: nat,
                      vx: byte, vy: byte, row: nat, bit: nat): (c: Canvas)
    requires |st.cells| == AlterDisplay.CELLS && |base| == REGISTER_COUNT && |mem| == MEM_SIZE && i + n <= MEM_SIZE
    requires row < n && bit <= 8
    ensures CanvasWf(c)
  {
    var sprite := Chip8Properties.SpriteAt(mem, i, n);
    Expected(SpriteBlit.DrawBits(AlterDisplay.SCREEN, st, vx as int, vy as int, sprite, row, bit), base,
             edited + RowTargets(vx as int, vy as int, row, bit))
  }

  /** The canvas once rows 0 .. row-1 have been drawn. */
  function RowsCanvas(base: seq<byte>, pixels: seq<bool>, mem: seq<byte>, i: nat, n: nat, vx: byte, vy: byte, row: nat): (c: Canvas)
    requires |base| == REGISTER_COUNT && |pixels| == AlterDisplay.CELLS && |mem| == MEM_SIZE
    requires (n == 0 || i + n <= MEM_SIZE) && row <= n
    ensures CanvasWf(c)
  {
    var sprite := Chip8Properties.SpriteAt(mem, i, n);
    Expected(SpriteBlit.DrawRows(AlterDisplay.SCREEN, pixels, vx as int, vy as int, sprite, row), base, Targets(vx as int, vy as int, row))
  }

  /** One pass of the inner loop is one visit of the blit, and it reports the visited cell. */
  lemma DrawBitIsVisit(st: SpriteBlit.Blit, base: seq<byte>, edited: seq<nat>, mem: seq<byte>, i: nat, n: nat,
                       vx: byte, vy: byte, px: byte, py: byte, row: nat, bit: nat)
    requires |st.cells| == AlterDisplay.CELLS && |base| == REGISTER_COUNT && |mem| == MEM_SIZE && i + n <= MEM_SIZE
    requires row < n && bit < 8 && px as int == vx as int + bit && py as int == vy as int + row
    ensures DrawBit(Expected(st, base, edited), mem, i, row, px, py, bit)
         == Expected(SpriteBlit.Visit(AlterDisplay.SCREEN, st, vx as int, vy as int, Chip8Properties.SpriteAt(mem, i, n), row, bit),
                     base, edited + [SpriteBlit.Target(AlterDisplay.SCREEN, vx as int, vy as int, row, bit)])
  {
    IndexIsTarget(vx, vy, px, py, row, bit);
    var p := SpriteBlit.Target(AlterDisplay.SCREEN, vx as int, vy as int, row, bit);
    var value := BitAt(mem[i + row], bit);
    FlagStep(base, st.collision, value && st.cells[p]);
    if !value {
      SameCell(st.cells, p);
    }
  }

  /** The same step between the canvases of bits 0 .. bit-1 and 0 .. bit. */
  lemma BitIsVisit(st: SpriteBlit.Blit, base: seq<byte>, edited: seq<nat>, mem: seq<byte>, i: nat, n: nat,
                   vx: byte, vy: byte, px: byte, py: byte, row: nat, bit: nat)
    requires |st.cells| == AlterDisplay.CELLS && |base| == REGISTER_COUNT && |mem| == MEM_SIZE && i + n <= MEM_SIZE
    requires row < n && bit < 8 && px as int == vx as int + bit && py as int == vy as int + row
    ensures DrawBit(BitsCanvas(st, base, edited, mem, i, n, vx, vy, row, bit), mem, i, row, px, py, bit)
         == BitsCanvas(st, base, edited, mem, i, n, vx, vy, row, bit + 1)
  {
    var sprite := Chip8Properties.SpriteAt(mem, i, n);
    var cur := SpriteBlit.DrawBits(AlterDisplay.SCREEN, st, vx as int, vy as int, sprite, row, bit);
    var t := RowTargets(vx as int, vy as int, row, bit);
    DrawBitIsVisit(cur, base, edited + t, mem, i, n, vx, vy, px, py, row, bit);
    Appended(edited, t, SpriteBlit.Target(AlterDisplay.SCREEN, vx as int, vy as int, row, bit));
  }

  lemma Appended(a: seq<nat>, t: seq<nat>, p: nat)
    ensures a + t + [p] == a + (t + [p])
  {
  }

  /** Bits `bit` .. 7 of one row, started from the canvas of the bits before them. */
  lemma {:induction false} RowBitsIsDrawBits(st: SpriteBlit.Blit, base: seq<byte>, edited: seq<nat>, mem: seq<byte>, i: nat, n: nat,
                                             vx: byte, vy: byte, px: byte, py: byte, row: nat, bit: nat)
    requires |st.cells| == AlterDisplay.CELLS && |base| == REGISTER_COUNT && |mem| == MEM_SIZE && i + n <= MEM_SIZE
    requires row < n && bit <= 8 && vx as int + 8 <= 0xFF
    requires px as int == vx as int + bit && py as int == vy as int + row
    ensures DrawRowBits(BitsCanvas(st, base, edited, mem, i, n, vx, vy, row, bit), mem, i, row, px, py, bit)
         == BitsCanvas(st, base, edited, mem, i, n, vx, vy, row, 8)
    decreases 8 - bit
  {
    if bit < 8 {
      BitIsVisit(st, base, edited, mem, i, n, vx, vy, px, py, row, bit);
      Next(px);
      RowBitsIsDrawBits(st, base, edited, mem, i, n, vx, vy, px + 1, py, row, bit + 1);
    }
  }

  /** A whole row: from the canvas of the rows before it to the canvas that includes it. */
  lemma RowIsDrawBits(base: seq<byte>, pixels: seq<bool>, mem: seq<byte>, i: nat, n: nat,
                      vx: byte, vy: byte, py: byte, row: nat)
    requires |base| == REGISTER_COUNT && |pixels| == AlterDisplay.CELLS && |mem| == MEM_SIZE && i + n <= MEM_SIZE
    requires row < n && vx as int + 8 <= 0xFF && py as int == vy as int + row
    ensures DrawRowBits(RowsCanvas(base, pixels, mem, i, n, vx, vy, row), mem, i, row, vx, py, 0)
         == RowsCanvas(base, pixels, mem, i, n, vx, vy, row + 1)
  {
    var sprite := Chip8Properties.SpriteAt(mem, i, n);
    var st := SpriteBlit.DrawRows(AlterDisplay.SCREEN, pixels, vx as int, vy as int, sprite, row);
    var t := Targets(vx as int, vy as int, row);
    assert t + [] == t;
    assert BitsCanvas(st, base, t, mem, i, n, vx, vy, row, 0) == RowsCanvas(base, pixels, mem, i, n, vx, vy, row);
    RowBitsIsDrawBits(st, base, t, mem, i, n, vx, vy, vx, py, row, 0);
  }

  /** Rows `row` .. n-1, for x other than VF so that every row starts at column Vx. */
  lemma {:induction false} SpriteRowsIsDrawRows(base: seq<byte>, pixels: seq<bool>, mem: seq<byte>, i: nat, n: nat,
                                                x: nat, vx: byte, vy: byte, py: byte, row: nat)
    requires |base| == REGISTER_COUNT && |pixels| == AlterDisplay.CELLS && |mem| == MEM_SIZE
    requires x < 16 && x != VF && vx == base[x] && row <= n && py as int == vy as int + row
    requires n == 0 || (i + n <= MEM_SIZE && vx as int + 8 <= 0xFF && vy as int + n <= 0xFF)
    ensures DrawSpriteRows(RowsCanvas(base, pixels, mem, i, n, vx, vy, row), mem, i, x, py, row, n)
         == RowsCanvas(base, pixels, mem, i, n, vx, vy, n)
    decreases n - row
  {
    if row < n {
      RowIsDrawBits(base, pixels, mem, i, n, vx, vy, py, row);
      Next(py);
      SpriteRowsIsDrawRows(base, pixels, mem, i, n, x, vx, vy, py + 1, row + 1);
    }
  }

  /**
   * Dxyn with x and y other than VF, where vx and vy are Vx and Vy: the display becomes the XOR
   * blit of the n bytes at i drawn at (vx, vy), VF is 1 exactly when the blit collided, no other
   * register changes, and the reported indices are the targets of the 8 · n sprite bits. Each
   * cell under a set bit is toggled, every other cell keeps its value, and the collision
   * happened exactly when some set bit landed on a lit cell.
   */
  lemma DrawIsBlit(m: Machine, d: Chip8Semantics.Decoded, vx: byte, vy: byte)
    requires Wf(m) && d.x < 16 && d.y < 16 && d.n < 16 && d.x != VF && d.y != VF && DrawDefined(m, d)
    requires vx == m.registers[d.x] && vy == m.registers[d.y]
    ensures var sprite := Chip8Properties.SpriteAt(m.mem, m.i as int, d.n);
      var blit := SpriteBlit.Draw(AlterDisplay.SCREEN, m.pixels, vx as int, vy as int, sprite);
      && ExecDraw(m, d)
         == Step(m.(registers := m.registers[VF := FlagByte(blit.collision)], pixels := blit.cells),
                 Output(true, Targets(vx as int, vy as int, d.n)))
      && (forall p :: 0 <= p < AlterDisplay.CELLS ==>
            blit.cells[p] == (m.pixels[p] != SpriteBlit.Covered(AlterDisplay.SCREEN, vx as int, vy as int, sprite, p)))
      && (blit.collision <==> SpriteBlit.HitsLit(AlterDisplay.SCREEN, m.pixels, vx as int, vy as int, sprite))
  {
    assert FlagByte(false) == 0;
    assert RowsCanvas(m.registers, m.pixels, m.mem, m.i as int, d.n, vx, vy, 0) == Canvas(m.registers[VF := 0], m.pixels, []);
    SpriteRowsIsDrawRows(m.registers, m.pixels, m.mem, m.i as int, d.n, d.x, vx, vy, vy, 0);
    SpriteBlit.DrawProperties(AlterDisplay.SCREEN, m.pixels, vx as int, vy as int, Chip8Properties.SpriteAt(m.mem, m.i as int, d.n));
  }
}
