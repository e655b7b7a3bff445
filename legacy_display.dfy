/**
 * The pixel buffer of the older emulator (tomo/alter_chip/display.rs).
 *
 * HOEHE * BREITE = 32 * 64 cells, addressed by a linear index; cell (x, y) sits at
 * x + y * BREITE, so the buffer is 64 cells wide and 32 tall, stored row by row.
 * The source stores each cell as a u8 that only `set_pixel_state` writes, always 0 or 1; it is
 * a bool here.
 */
module AlterDisplay {
  import opened Bits
  import SpriteBlit
  import Chip8Display

  const HOEHE: nat := 32
  const BREITE: nat := 64
  const CELLS: nat := 2048

  /** The layout display.rs uses: cell (x, y) at x + y * BREITE. */
  const SCREEN: SpriteBlit.Screen := SpriteBlit.Screen(BREITE, HOEHE, SpriteBlit.RowMajor)

  /** The font table of this variant: byte for byte the one of the current emulator. */
  const FONT: seq<byte> := Chip8Display.FONT

  /**
   * The linear index `get_pixel_state` reads is the cell at column position % BREITE and row
   * position / BREITE of the layout.
   */
  lemma PixelStateIsCell(d: Display, position: nat)
    requires d.Valid() && position < CELLS
    ensures d.GetPixelState(position)
         == d.Cells()[SpriteBlit.Cell(SCREEN, SpriteBlit.ColOf(SCREEN, position), SpriteBlit.RowOf(SCREEN, position))]
  {
    SpriteBlit.CellOnto(SCREEN, position);
  }

  class Display {
    const mem: array<bool>

    ghost predicate Valid()
      reads this
    {
      mem.Length == CELLS
    }

    ghost function Cells(): seq<bool>
      reads this, mem
    {
      mem[..]
    }

    /** `Display::new`: every cell off. */
    constructor ()
      ensures Valid() && fresh(mem)
      ensures Cells() == AllOff(CELLS)
    {
      mem := new bool[CELLS](_ => false);
    }

    /** `get_pixel_state`: whether the cell at a linear index is on (PixelStateIsCell says which cell). */
    function GetPixelState(position: nat): bool
      reads this, mem
      requires Valid() && position < CELLS
    {
      mem[position]
    }

    /** `set_pixel_state`: the cell at `position` becomes `state`; nothing else changes. */
    method SetPixelState(position: nat, state: bool)
      requires Valid() && position < CELLS
      modifies mem
      ensures Cells() == old(Cells())[position := state]
      ensures GetPixelState(position) == state
    {
      mem[position] := state;
    }

    /** `clear_display`: visits every (x, y) with x < BREITE and y < HOEHE and switches it off. */
    method ClearDisplay()
      requires Valid()
      modifies mem
      ensures Cells() == AllOff(CELLS)
    {
      var x := 0;
      while x < BREITE
        invariant 0 <= x <= BREITE
        invariant forall p :: 0 <= p < CELLS ==> mem[p] == (if p % BREITE < x then false else old(mem[p]))
      {
        var y := 0;
        while y < HOEHE
          invariant 0 <= y <= HOEHE
          invariant forall p :: 0 <= p < CELLS ==>
            mem[p] == (if p % BREITE < x || (p % BREITE == x && p / BREITE < y) then false else old(mem[p]))
        {
          SetPixelState(x + y * BREITE, false);
          y := y + 1;
        }
        x := x + 1;
      }
    }

    /**
     * `draw`: XOR-blits the sprite at (x, y) with wrap-around and reports a collision.
     * Cells under no set bit keep their value; for a sprite of at most HOEHE rows, exactly the
     * cells under set bits are toggled and the collision is "some set bit met a lit cell".
     */
    method Draw(x: nat, y: nat, sprite: seq<byte>) returns (collision: bool)
      requires Valid()
      modifies mem
      ensures SpriteBlit.Blit(Cells(), collision) == SpriteBlit.Draw(SCREEN, old(Cells()), x, y, sprite)
      ensures forall p :: 0 <= p < CELLS && !SpriteBlit.Covered(SCREEN, x, y, sprite, p) ==> Cells()[p] == old(Cells())[p]
      ensures |sprite| <= HOEHE ==>
        && (forall p :: 0 <= p < CELLS ==> Cells()[p] == (old(Cells())[p] != SpriteBlit.Covered(SCREEN, x, y, sprite, p)))
        && (collision <==> SpriteBlit.HitsLit(SCREEN, old(Cells()), x, y, sprite))
    {
      ghost var start := mem[..];
      collision := false;
      var j := 0;
      while j < |sprite|
        invariant 0 <= j <= |sprite|
        invariant SpriteBlit.Blit(mem[..], collision) == SpriteBlit.DrawRows(SCREEN, start, x, y, sprite, j)
      {
        var row := sprite[j];
        ghost var rowStart := SpriteBlit.Blit(mem[..], collision);
        var i := 0;
        while i < 8
          invariant 0 <= i <= 8
          invariant SpriteBlit.Blit(mem[..], collision) == SpriteBlit.DrawBits(SCREEN, rowStart, x, y, sprite, j, i)
        {
          var newValue := (row >> (7 - i)) & 0x01;
          ghost var before := SpriteBlit.Blit(mem[..], collision);
          assert newValue == 1 <==> BitAt(sprite[j], i);
          if newValue == 1 {
            var xi := (x + i) % BREITE;
            var yj := (y + j) % HOEHE;
            assert xi + yj * BREITE == SpriteBlit.Target(SCREEN, x, y, j, i);
            var oldValue := GetPixelState(xi + yj * BREITE);
            if oldValue {
              collision := true;
            }
            SetPixelState(xi + yj * BREITE, (newValue == 1) != oldValue);
          }
          assert SpriteBlit.Blit(mem[..], collision) == SpriteBlit.Visit(SCREEN, before, x, y, sprite, j, i);
          i := i + 1;
        }
        j := j + 1;
      }
      SpriteBlit.DrawProperties(SCREEN, start, x, y, sprite);
    }
  }
}
